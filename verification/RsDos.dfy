/** RS-DOS disks: granules linked through a map, and a flat directory. */
module RsDos {
  import opened Arithmetic
  import opened Wrappers
  import opened Chunks
  import opened ByteStrings
  import opened FiniteSets
  import opened Sequences
  import opened Chains

  const SECTOR := 256
  const SECTORS_PER_TRACK := 18
  const IMAGE_SIZE := 161280
  const SECTORS_PER_GRAN := 9
  const GRAN_BYTES := 2304
  const TOTAL_GRANS := 68
  const DIR_TRACK := 17
  const MAX_ENTRIES := 72
  const ENTRY_LEN := 32
  const GRAN_FREE := 0xFF
  const GRAN_LAST_BASE := 0xC0
  const FT_MACHINE: byte := 0x02
  const DIR_END: byte := 0xFF

  /** Files with sanitised names. */
  datatype File = File(name: seq<byte>, ext: seq<byte>, data: seq<byte>)

  // ---- Geometry ----

  function SectorOffset(track: nat, sector: nat): nat
    requires sector >= 1
  {
    (track * SECTORS_PER_TRACK + (sector - 1)) * SECTOR
  }

  function GranTrack(g: nat): nat {
    if g < 34 then g / 2 else g / 2 + 1
  }

  function GranFirstSector(g: nat): nat {
    if g % 2 == 0 then 1 else 10
  }

  function GranOffset(g: nat): nat {
    SectorOffset(GranTrack(g), GranFirstSector(g))
  }

  const MAP_AT := 78592
  const DIR_AT := 78848

  lemma Layout()
    ensures MAP_AT == SectorOffset(DIR_TRACK, 2) && DIR_AT == SectorOffset(DIR_TRACK, 3)
    ensures DIR_AT + MAX_ENTRIES * ENTRY_LEN <= SectorOffset(DIR_TRACK + 1, 1)
  {
  }

  /** Granules do not overlap, lie on the disk, and miss the directory track. */
  lemma GranulesApart(g: nat, h: nat)
    requires g < TOTAL_GRANS && h < TOTAL_GRANS
    ensures GranOffset(g) + GRAN_BYTES <= IMAGE_SIZE
    ensures GranOffset(g) + GRAN_BYTES <= SectorOffset(DIR_TRACK, 1) || SectorOffset(DIR_TRACK + 1, 1) <= GranOffset(g)
    ensures g < h ==> GranOffset(g) + GRAN_BYTES <= GranOffset(h)
  {
    GranLinear(g);
    GranLinear(h);
  }

  lemma GranLinear(g: nat)
    ensures GranOffset(g) == if g < 34 then GRAN_BYTES * g else GRAN_BYTES * (g + 2)
  {
  }

  // ---- Sizes ----

  function TotalSectors(n: nat): nat {
    if n == 0 then 1 else (n + SECTOR - 1) / SECTOR
  }

  function Grans(n: nat): nat {
    (TotalSectors(n) + SECTORS_PER_GRAN - 1) / SECTORS_PER_GRAN
  }

  function SectorsInLast(n: nat): int {
    TotalSectors(n) - (Grans(n) - 1) * SECTORS_PER_GRAN
  }

  function BytesInLast(n: nat): int {
    n - (TotalSectors(n) - 1) * SECTOR
  }

  /** The last granule holds from one to nine sectors, the last sector up to 256 bytes, none only if
      the file is empty; and the reader's sum gives the length back. */
  lemma Sizes(n: nat)
    ensures Grans(n) >= 1 && 1 <= SectorsInLast(n) <= SECTORS_PER_GRAN && 0 <= BytesInLast(n) <= SECTOR
    ensures BytesInLast(n) == 0 <==> n == 0
    ensures ((Grans(n) - 1) * SECTORS_PER_GRAN + SectorsInLast(n) - 1) * SECTOR + BytesInLast(n) == n
    ensures (Grans(n) - 1) * GRAN_BYTES <= n <= Grans(n) * GRAN_BYTES
  {
  }

  // ---- Chains ----

  type GranMap = seq<nat>

  /** A chain names granules of the disk, each once. */
  ghost predicate IsChain(s: seq<nat>) {
    (forall i :: 0 <= i < |s| ==> s[i] < TOTAL_GRANS) && Distinct(s)
  }

  /** What the map says of granule i of a chain. */
  function LinkOf(chain: seq<nat>, last: int, i: nat): int
    requires i < |chain|
  {
    if i + 1 < |chain| then chain[i + 1] else GRAN_LAST_BASE + last
  }

  ghost predicate Linked(m: GranMap, chain: seq<nat>, last: int)
    requires |m| == TOTAL_GRANS && IsChain(chain)
  {
    forall i :: 0 <= i < |chain| ==> m[chain[i]] == LinkOf(chain, last, i)
  }

  ghost predicate ChunkAt(image: seq<byte>, data: seq<byte>, g: nat, i: nat)
    requires |image| == IMAGE_SIZE && g < TOTAL_GRANS
  {
    GranulesApart(g, g);
    image[GranOffset(g)..GranOffset(g) + |Chunk(GRAN_BYTES, data, i)|] == Chunk(GRAN_BYTES, data, i)
  }

  ghost predicate FileHolds(image: seq<byte>, m: GranMap, data: seq<byte>, chain: seq<nat>)
    requires |image| == IMAGE_SIZE && |m| == TOTAL_GRANS
  {
    && IsChain(chain) && |chain| == Grans(|data|) && Linked(m, chain, SectorsInLast(|data|))
    && forall i :: 0 <= i < |chain| ==> ChunkAt(image, data, chain[i], i)
  }

  ghost function Free(m: GranMap): set<nat>
    requires |m| == TOTAL_GRANS
  {
    set g: nat | g < TOTAL_GRANS && m[g] == GRAN_FREE
  }

  ghost function Used(chains: seq<seq<nat>>): set<nat> {
    if chains == [] then {} else Used(chains[..|chains| - 1]) + Set(chains[|chains| - 1])
  }

  /** The disk holds the files, each in its own chain; the other granules are free. */
  ghost predicate DiskHolds(image: seq<byte>, m: GranMap, files: seq<File>, chains: seq<seq<nat>>)
    requires |image| == IMAGE_SIZE && |m| == TOTAL_GRANS
  {
    && |files| == |chains|
    && (forall k :: 0 <= k < |files| ==> FileHolds(image, m, files[k].data, chains[k]))
    && Free(m) !! Used(chains) && |Free(m)| + GransOf(files) == TOTAL_GRANS && |Used(chains)| == GransOf(files)
    && (forall k :: 0 <= k < |chains| ==> Set(chains[k]) <= Used(chains))
    && forall g :: 0 <= g < TOTAL_GRANS ==> m[g] < 256
  }

  function GransOf(files: seq<File>): nat {
    if files == [] then 0 else GransOf(files[..|files| - 1]) + Grans(|files[|files| - 1].data|)
  }

  /** Granule g is as it was. */
  ghost predicate SameGranule(image: seq<byte>, image': seq<byte>, g: nat)
    requires |image| == |image'| == IMAGE_SIZE && g < TOTAL_GRANS
  {
    forall p :: GranOffset(g) <= p < GranOffset(g) + GRAN_BYTES && p < IMAGE_SIZE ==> image'[p] == image[p]
  }

  lemma FileKept(image: seq<byte>, image': seq<byte>, m: GranMap, m': GranMap, data: seq<byte>, chain: seq<nat>)
    requires |image| == |image'| == IMAGE_SIZE && |m| == |m'| == TOTAL_GRANS && FileHolds(image, m, data, chain)
    requires forall g :: g in Set(chain) && g < TOTAL_GRANS ==> SameGranule(image, image', g) && m'[g] == m[g]
    ensures FileHolds(image', m', data, chain)
  {
    hide Chunk, GranOffset;
    forall i | 0 <= i < |chain| ensures ChunkAt(image', data, chain[i], i) && m'[chain[i]] == m[chain[i]] {
      assert chain[i] in Set(chain) && ChunkAt(image, data, chain[i], i);
      GranulesApart(chain[i], chain[i]);
      var o := GranOffset(chain[i]);
      assert image'[o..o + |Chunk(GRAN_BYTES, data, i)|] == image[o..o + |Chunk(GRAN_BYTES, data, i)|];
    }
  }

  // ---- Adding files ----

  datatype Entry = Entry(name: seq<byte>, ext: seq<byte>, first: nat, blast: nat)

  class Disk {
    const image: array<byte>
    var granMap: GranMap
    var entries: seq<Entry>

    ghost predicate Sized()
      reads this
    {
      image.Length == IMAGE_SIZE && |granMap| == TOTAL_GRANS
    }

    constructor ()
      ensures Sized() && fresh(image) && entries == [] && DiskHolds(image[..], granMap, [], [])
    {
      image := new byte[IMAGE_SIZE](_ => 0);
      granMap := seq(TOTAL_GRANS, _ => GRAN_FREE);
      entries := [];
      new;
      AllFree(granMap);
    }

    /** The first free granules, as many as asked for. */
    method AllocGrans(count: nat) returns (r: Option<seq<nat>>)
      requires Sized()
      ensures r.None? <==> |Free(granMap)| < count
      ensures r.Some? ==> |r.value| == count && IsChain(r.value) && Set(r.value) <= Free(granMap)
    {
      hide Set, Free;
      var free: seq<nat> := [];
      NoneBelow(granMap);
      for g := 0 to TOTAL_GRANS
        invariant IsChain(free) && (forall i :: 0 <= i < |free| ==> free[i] < g) && Set(free) == FreeBelow(granMap, g)
      {
        FreeNext(granMap, g);
        if granMap[g] == GRAN_FREE {
          SetAppend(free, g);
          free := free + [g];
        }
      }
      DistinctSize(free);
      AllBelow(granMap);
      if |free| < count {
        return None;
      }
      PrefixSet(free[..count], free);
      r := Some(free[..count]);
    }

    /** Afterwards each granule of the chain holds its piece, and no other granule has changed. */
    method WriteData(data: seq<byte>, chain: seq<nat>)
      requires Sized() && IsChain(chain)
      modifies image
      ensures forall i :: 0 <= i < |chain| ==> ChunkAt(image[..], data, chain[i], i)
      ensures forall g :: 0 <= g < TOTAL_GRANS && g !in Set(chain) ==> SameGranule(old(image[..]), image[..], g)
    {
      hide Chunk, GranOffset;
      for i := 0 to |chain|
        invariant forall j :: 0 <= j < i ==> ChunkAt(image[..], data, chain[j], j)
        invariant forall g :: 0 <= g < TOTAL_GRANS && g !in Set(chain) ==> SameGranule(old(image[..]), image[..], g)
      {
        ghost var before := image[..];
        GranulesApart(chain[i], chain[i]);
        CopyInto(image, GranOffset(chain[i]), Chunk(GRAN_BYTES, data, i));
        ChunkWritten(before, image[..], data, chain, i);
        forall g | 0 <= g < TOTAL_GRANS && g !in Set(chain) ensures SameGranule(old(image[..]), image[..], g) {
          assert chain[i] in Set(chain);
          assert SameGranule(old(image[..]), before, g) && SameGranule(before, image[..], g);
        }
      }
    }

    /** Link the chain; the last granule says how many of its sectors are used. */
    method Link(chain: seq<nat>, last: nat)
      requires Sized() && IsChain(chain) && chain != []
      modifies this`granMap
      ensures Sized() && Linked(granMap, chain, last)
      ensures forall g :: 0 <= g < TOTAL_GRANS && g !in Set(chain) ==> granMap[g] == old(granMap)[g]
    {
      for i := 0 to |chain| - 1
        invariant Sized() && forall j :: 0 <= j < i ==> granMap[chain[j]] == LinkOf(chain, last, j)
        invariant forall g :: 0 <= g < TOTAL_GRANS && g !in Set(chain) ==> granMap[g] == old(granMap)[g]
      {
        granMap := granMap[chain[i] := chain[i + 1]];
      }
      granMap := granMap[chain[|chain| - 1] := GRAN_LAST_BASE + last];
    }
  }

  ghost function FreeBelow(m: GranMap, n: nat): set<nat>
    requires n <= |m| == TOTAL_GRANS
  {
    set g: nat | g < n && m[g] == GRAN_FREE
  }

  lemma NoneBelow(m: GranMap)
    requires |m| == TOTAL_GRANS
    ensures Set([]) == FreeBelow(m, 0)
  {
  }

  lemma FreeNext(m: GranMap, n: nat)
    requires n < |m| == TOTAL_GRANS
    ensures FreeBelow(m, n + 1) == FreeBelow(m, n) + if m[n] == GRAN_FREE then {n} else {}
  {
  }

  lemma AllBelow(m: GranMap)
    requires |m| == TOTAL_GRANS
    ensures FreeBelow(m, TOTAL_GRANS) == Free(m)
  {
  }

  lemma AllFree(m: GranMap)
    requires |m| == TOTAL_GRANS && forall g :: 0 <= g < TOTAL_GRANS ==> m[g] == GRAN_FREE
    ensures |Free(m)| == TOTAL_GRANS
  {
    RangeSize(Free(m), 0, TOTAL_GRANS);
  }

  lemma ChunkWritten(before: seq<byte>, after: seq<byte>, data: seq<byte>, chain: seq<nat>, i: nat)
    requires |before| == IMAGE_SIZE && IsChain(chain) && i < |chain|
    requires GranOffset(chain[i]) + |Chunk(GRAN_BYTES, data, i)| <= IMAGE_SIZE
    requires after == Patch(before, GranOffset(chain[i]), Chunk(GRAN_BYTES, data, i))
    requires forall j :: 0 <= j < i ==> ChunkAt(before, data, chain[j], j)
    ensures forall j :: 0 <= j <= i ==> ChunkAt(after, data, chain[j], j)
    ensures forall g :: 0 <= g < TOTAL_GRANS && g != chain[i] ==> SameGranule(before, after, g)
  {
    hide Chunk, GranOffset;
    var o, c := GranOffset(chain[i]), Chunk(GRAN_BYTES, data, i);
    assert after[o..o + |c|] == c;
    forall g | 0 <= g < TOTAL_GRANS && g != chain[i] ensures SameGranule(before, after, g) {
      GranulesApart(g, chain[i]);
      GranulesApart(chain[i], g);
    }
    forall j | 0 <= j < i ensures ChunkAt(after, data, chain[j], j) {
      GranulesApart(chain[j], chain[j]);
      assert ChunkAt(before, data, chain[j], j) && SameGranule(before, after, chain[j]);
      var oj, n := GranOffset(chain[j]), |Chunk(GRAN_BYTES, data, j)|;
      assert after[oj..oj + n] == before[oj..oj + n];
    }
  }

  /** One more file on the disk. */
  lemma FileAdded(image: seq<byte>, image': seq<byte>, m: GranMap, m': GranMap, files: seq<File>, chains: seq<seq<nat>>, f: File, chain: seq<nat>)
    requires |image| == |image'| == IMAGE_SIZE && |m| == |m'| == TOTAL_GRANS && DiskHolds(image, m, files, chains)
    requires IsChain(chain) && Set(chain) <= Free(m) && FileHolds(image', m', f.data, chain)
    requires forall g :: 0 <= g < TOTAL_GRANS && g !in Set(chain) ==> SameGranule(image, image', g) && m'[g] == m[g]
    ensures DiskHolds(image', m', files + [f], chains + [chain])
  {
    hide FileHolds, SameGranule, Free, Set, Used, GransOf;
    var files', chains' := files + [f], chains + [chain];
    UsedNext(chains, chain);
    GransNext(files, f);
    LinksAreNotFree(m', image', f.data, chain);
    FreeTaken(m, m', chain);
    DistinctSize(chain);
    ChainLength(image', m', f.data, chain);
    forall k | 0 <= k < |files'| ensures FileHolds(image', m', files'[k].data, chains'[k]) {
      if k < |files| {
        assert Set(chains[k]) <= Used(chains);
        FileKept(image, image', m, m', files[k].data, chains[k]);
      }
    }
  }

  lemma UsedNext(chains: seq<seq<nat>>, chain: seq<nat>)
    ensures Used(chains + [chain]) == Used(chains) + Set(chain)
    ensures Used(chains) !! Set(chain) ==> |Used(chains + [chain])| == |Used(chains)| + |Set(chain)|
  {
    hide Set;
    assert (chains + [chain])[..|chains|] == chains;
  }

  lemma GransNext(files: seq<File>, f: File)
    ensures GransOf(files + [f]) == GransOf(files) + Grans(|f.data|)
  {
    assert (files + [f])[..|files|] == files;
  }

  lemma FreeTaken(m: GranMap, m': GranMap, chain: seq<nat>)
    requires |m| == |m'| == TOTAL_GRANS && Set(chain) <= Free(m) && forall g :: g in Set(chain) ==> g < TOTAL_GRANS && m'[g] < GRAN_FREE
    requires forall g :: 0 <= g < TOTAL_GRANS && g !in Set(chain) ==> m'[g] == m[g]
    ensures Free(m') == Free(m) - Set(chain) && |Free(m')| == |Free(m)| - |Set(chain)|
  {
    hide Set;
  }

  lemma ChainLength(image: seq<byte>, m: GranMap, data: seq<byte>, chain: seq<nat>)
    requires |image| == IMAGE_SIZE && |m| == TOTAL_GRANS && FileHolds(image, m, data, chain)
    ensures |chain| == Grans(|data|)
  {
  }

  lemma LinksAreNotFree(m: GranMap, image: seq<byte>, data: seq<byte>, chain: seq<nat>)
    requires |image| == IMAGE_SIZE && |m| == TOTAL_GRANS && FileHolds(image, m, data, chain)
    ensures forall g :: g in Set(chain) ==> g < TOTAL_GRANS && m[g] < GRAN_FREE
  {
    Sizes(|data|);
    forall i | 0 <= i < |chain| ensures m[chain[i]] < GRAN_FREE {
      assert m[chain[i]] == LinkOf(chain, SectorsInLast(|data|), i);
    }
  }

  function EntryFor(f: File, first: nat): Entry {
    Sizes(|f.data|);
    Entry(f.name, f.ext, first, BytesInLast(|f.data|))
  }

  /** Add a file: it is refused exactly if the directory is full, or too few granules are free. */
  method AddFile(d: Disk, f: File, ghost files: seq<File>, ghost chains: seq<seq<nat>>) returns (ok: bool, ghost chain: seq<nat>)
    requires d.Sized() && DiskHolds(d.image[..], d.granMap, files, chains)
    modifies d`granMap, d`entries, d.image
    ensures d.Sized() && (ok <==> |old(d.entries)| < MAX_ENTRIES && GransOf(files) + Grans(|f.data|) <= TOTAL_GRANS)
    ensures ok ==> DiskHolds(d.image[..], d.granMap, files + [f], chains + [chain])
    ensures ok ==> chain != [] && chain[0] < TOTAL_GRANS && d.entries == old(d.entries) + [EntryFor(f, chain[0])]
  {
    hide FileHolds, Chunk, Free, Used, GransOf;
    chain := [];
    if |d.entries| >= MAX_ENTRIES {
      return false, chain;
    }
    var n := |f.data|;
    Sizes(n);
    var r := d.AllocGrans(Grans(n));
    if r.None? {
      return false, chain;
    }
    var grans := r.value;
    ghost var image, m := d.image[..], d.granMap;
    d.WriteData(f.data, grans);
    d.Link(grans, SectorsInLast(n));
    HoldsNow(d.image[..], d.granMap, f.data, grans);
    FileAdded(image, d.image[..], m, d.granMap, files, chains, f, grans);
    d.entries := d.entries + [EntryFor(f, grans[0])];
    chain := grans;
    ok := true;
  }

  lemma HoldsNow(image: seq<byte>, m: GranMap, data: seq<byte>, chain: seq<nat>)
    requires |image| == IMAGE_SIZE && |m| == TOTAL_GRANS && IsChain(chain) && |chain| == Grans(|data|) && Linked(m, chain, SectorsInLast(|data|))
    requires forall i :: 0 <= i < |chain| ==> ChunkAt(image, data, chain[i], i)
    ensures FileHolds(image, m, data, chain)
  {
  }

  // ---- Serialising ----

  /** Names as the sanitiser makes them. */
  predicate NameFits(f: File) {
    1 <= |f.name| <= 8 && |f.ext| <= 3 && f.name[0] != 0 && IsPlain(f.name) && IsPlain(f.ext)
  }

  predicate EntryFits(e: Entry) {
    |e.name| <= 8 && |e.ext| <= 3 && e.first < TOTAL_GRANS && e.blast <= SECTOR
  }

  function EntryBytes(e: Entry): (s: seq<byte>)
    requires EntryFits(e)
    ensures |s| == ENTRY_LEN
  {
    PadTo(e.name, 8) + PadTo(e.ext, 3) + [FT_MACHINE, 0, e.first, e.blast / 256, e.blast % 256] + Zeros(16)
  }

  ghost predicate SlotHolds(image: seq<byte>, entries: seq<Entry>, i: nat)
    requires |image| == IMAGE_SIZE && i < MAX_ENTRIES && forall k :: 0 <= k < |entries| ==> EntryFits(entries[k])
  {
    if i < |entries| then image[DIR_AT + i * ENTRY_LEN..DIR_AT + i * ENTRY_LEN + ENTRY_LEN] == EntryBytes(entries[i])
    else image[DIR_AT + i * ENTRY_LEN] == DIR_END
  }

  /** The image holds the map and the directory. */
  ghost predicate Serialised(image: seq<byte>, m: GranMap, entries: seq<Entry>)
    requires |image| == IMAGE_SIZE && |m| == TOTAL_GRANS && forall k :: 0 <= k < |entries| ==> EntryFits(entries[k])
  {
    image[MAP_AT..MAP_AT + TOTAL_GRANS] == m && forall i :: 0 <= i < MAX_ENTRIES ==> SlotHolds(image, entries, i)
  }

  /** What a directory entry says of the file that it is for. */
  ghost predicate Describes(entries: seq<Entry>, files: seq<File>, chains: seq<seq<nat>>) {
    && |entries| == |files| == |chains| <= MAX_ENTRIES
    && forall k :: 0 <= k < |files| ==> NameFits(files[k]) && chains[k] != [] && chains[k][0] < TOTAL_GRANS && entries[k] == EntryFor(files[k], chains[k][0])
  }

  lemma DescribedFit(entries: seq<Entry>, files: seq<File>, chains: seq<seq<nat>>)
    requires Describes(entries, files, chains)
    ensures forall k :: 0 <= k < |entries| ==> EntryFits(entries[k])
  {
    forall k | 0 <= k < |entries| ensures EntryFits(entries[k]) { Sizes(|files[k].data|); }
  }

  /** Outside the directory track nothing has changed. */
  lemma GranulesKept(image: seq<byte>, image': seq<byte>, m: GranMap, files: seq<File>, chains: seq<seq<nat>>)
    requires |image| == |image'| == IMAGE_SIZE && |m| == TOTAL_GRANS && DiskHolds(image, m, files, chains)
    requires forall p :: 0 <= p < IMAGE_SIZE && !(MAP_AT <= p < DIR_AT + MAX_ENTRIES * ENTRY_LEN) ==> image'[p] == image[p]
    ensures DiskHolds(image', m, files, chains)
  {
    hide FileHolds, Used;
    Layout();
    forall g | 0 <= g < TOTAL_GRANS ensures SameGranule(image, image', g) { GranulesApart(g, g); }
    forall k | 0 <= k < |files| ensures FileHolds(image', m, files[k].data, chains[k]) {
      FileKept(image, image', m, m, files[k].data, chains[k]);
    }
  }

  method Build(d: Disk, ghost files: seq<File>, ghost chains: seq<seq<nat>>)
    requires d.Sized() && DiskHolds(d.image[..], d.granMap, files, chains) && Describes(d.entries, files, chains)
    requires forall g :: 0 <= g < TOTAL_GRANS ==> d.granMap[g] < 256
    modifies d.image
    ensures DiskHolds(d.image[..], d.granMap, files, chains)
    ensures (forall k :: 0 <= k < |d.entries| ==> EntryFits(d.entries[k])) && Serialised(d.image[..], d.granMap, d.entries)
  {
    hide DiskHolds, EntryBytes, Describes, EntryFits, SlotHolds;
    DescribedFit(d.entries, files, chains);
    ghost var image := d.image[..];
    for g := 0 to TOTAL_GRANS
      invariant forall p :: 0 <= p < IMAGE_SIZE && !(MAP_AT <= p < MAP_AT + g) ==> d.image[p] == image[p]
      invariant forall h :: 0 <= h < g ==> d.image[MAP_AT + h] == d.granMap[h]
    {
      d.image[MAP_AT + g] := d.granMap[g];
    }
    assert d.image[..][MAP_AT..MAP_AT + TOTAL_GRANS] == d.granMap;
    for i := 0 to MAX_ENTRIES
      invariant forall p :: 0 <= p < IMAGE_SIZE && !(MAP_AT <= p < DIR_AT + MAX_ENTRIES * ENTRY_LEN) ==> d.image[p] == image[p]
      invariant d.image[..][MAP_AT..MAP_AT + TOTAL_GRANS] == d.granMap
      invariant forall j :: 0 <= j < i ==> SlotHolds(d.image[..], d.entries, j)
    {
      ghost var before := d.image[..];
      var bytes := if i < |d.entries| then EntryBytes(d.entries[i]) else [DIR_END];
      CopyInto(d.image, DIR_AT + i * ENTRY_LEN, bytes);
      SlotWritten(before, d.image[..], d.entries, i);
    }
    GranulesKept(image, d.image[..], d.granMap, files, chains);
  }

  lemma SlotWritten(before: seq<byte>, after: seq<byte>, entries: seq<Entry>, i: nat)
    requires |before| == IMAGE_SIZE && i < MAX_ENTRIES && forall k :: 0 <= k < |entries| ==> EntryFits(entries[k])
    requires after == Patch(before, DIR_AT + i * ENTRY_LEN, if i < |entries| then EntryBytes(entries[i]) else [DIR_END])
    requires forall j :: 0 <= j < i ==> SlotHolds(before, entries, j)
    ensures forall j :: 0 <= j <= i ==> SlotHolds(after, entries, j)
    ensures after[MAP_AT..MAP_AT + TOTAL_GRANS] == before[MAP_AT..MAP_AT + TOTAL_GRANS]
    ensures forall p :: 0 <= p < IMAGE_SIZE && !(MAP_AT <= p < DIR_AT + MAX_ENTRIES * ENTRY_LEN) ==> after[p] == before[p]
  {
    hide EntryBytes;
    var at := DIR_AT + i * ENTRY_LEN;
    if i < |entries| { assert after[at..at + ENTRY_LEN] == EntryBytes(entries[i]); }
    forall j | 0 <= j < i ensures SlotHolds(after, entries, j) {
      assert SlotHolds(before, entries, j);
      var k := DIR_AT + j * ENTRY_LEN;
      assert after[k..k + ENTRY_LEN] == before[k..k + ENTRY_LEN];
    }
  }

  // ---- Reading back ----

  /** Where the map leads from a granule. */
  function MapLinks(m: GranMap): Links {
    (g: nat) => if g >= |m| then Fails else if m[g] >= GRAN_LAST_BASE then Ends else Goes(m[g])
  }

  /** Follow a chain to its last granule. It is an error if the chain leaves the map or never ends,
      and only then. */
  method FollowChain(granMap: seq<byte>, first: nat) returns (r: Option<(seq<nat>, nat)>)
    requires |granMap| == TOTAL_GRANS
    ensures r.None? ==> forall p :: !Whole(MapLinks(granMap), first, p)
    ensures r.Some? ==> Whole(MapLinks(granMap), first, r.value.0)
    ensures r.Some? ==> var last := r.value.0[|r.value.0| - 1]; last < TOTAL_GRANS && r.value.1 == granMap[last] - GRAN_LAST_BASE
  {
    hide Path, Whole;
    ghost var links := MapLinks(granMap);
    var grans: seq<nat>, g: nat, guard := [], first, 0;
    PathStart(links, first);
    while true
      invariant guard == |grans| <= TOTAL_GRANS && Path(links, first, grans + [g])
      decreases TOTAL_GRANS - |grans|
    {
      ghost var before := grans;
      grans := grans + [g];
      if g >= |granMap| {
        NeverWhole(granMap, first, grans);
        return None;
      }
      var val: nat := granMap[g];
      guard := guard + 1;
      if guard > TOTAL_GRANS {
        NeverWhole(granMap, first, grans);
        return None;
      }
      if val >= GRAN_LAST_BASE {
        WholeNow(links, first, grans);
        return Some((grans, val - GRAN_LAST_BASE));
      }
      PathNext(links, first, grans, val);
      g := val;
    }
  }

  lemma NeverWhole(granMap: seq<byte>, first: nat, p: seq<nat>)
    requires |granMap| == TOTAL_GRANS && Path(MapLinks(granMap), first, p) && p != [] && (p[|p| - 1] >= |granMap| || |p| > TOTAL_GRANS)
    ensures forall q :: !Whole(MapLinks(granMap), first, q)
  {
    hide Path, Whole;
    NotWhole(MapLinks(granMap), first, p, 0, TOTAL_GRANS);
  }

  /** What a chain's granules hold, put together. */
  ghost function Joined(image: seq<byte>, p: seq<nat>): (s: seq<byte>)
    requires |image| == IMAGE_SIZE && forall i :: 0 <= i < |p| ==> p[i] < TOTAL_GRANS
  {
    if p == [] then [] else
      var g := p[|p| - 1];
      GranulesApart(g, g);
      Joined(image, p[..|p| - 1]) + image[GranOffset(g)..GranOffset(g) + GRAN_BYTES]
  }

  /** s[:n], for an n of either sign. */
  function Front(s: seq<byte>, n: int): seq<byte> {
    if n >= 0 then s[..Min(n, |s|)] else if |s| + n >= 0 then s[..|s| + n] else []
  }

  function ReadLength(grans: nat, sectorsInLast: int, blast: nat): int {
    ((grans - 1) * SECTORS_PER_GRAN + sectorsInLast - 1) * SECTOR + blast
  }

  lemma WholeInside(m: GranMap, first: nat, p: seq<nat>)
    requires |m| == TOTAL_GRANS && Whole(MapLinks(m), first, p)
    ensures forall i :: 0 <= i < |p| ==> p[i] < TOTAL_GRANS
  {
    WholeNeverFails(MapLinks(m), first, p);
  }

  /** What an entry with this first granule and this count for the last sector says that a file holds. */
  ghost predicate ReadsAs(image: seq<byte>, m: GranMap, first: nat, blast: nat, data: seq<byte>)
    requires |image| == IMAGE_SIZE && |m| == TOTAL_GRANS
  {
    exists p :: Whole(MapLinks(m), first, p) && ReadsAlong(image, m, first, p, blast, data)
  }

  ghost predicate ReadsAlong(image: seq<byte>, m: GranMap, first: nat, p: seq<nat>, blast: nat, data: seq<byte>)
    requires |image| == IMAGE_SIZE && |m| == TOTAL_GRANS && Whole(MapLinks(m), first, p)
  {
    WholeInside(m, first, p);
    data == Front(Joined(image, p), ReadLength(|p|, m[p[|p| - 1]] - GRAN_LAST_BASE, blast))
  }

  lemma ReadsOneWay(image: seq<byte>, m: GranMap, first: nat, blast: nat, data: seq<byte>, data': seq<byte>)
    requires |image| == IMAGE_SIZE && |m| == TOTAL_GRANS && ReadsAs(image, m, first, blast, data) && ReadsAs(image, m, first, blast, data')
    ensures data == data'
  {
    hide Whole, Joined, Front, ReadLength;
    var p :| Whole(MapLinks(m), first, p) && ReadsAlong(image, m, first, p, blast, data);
    var q :| Whole(MapLinks(m), first, q) && ReadsAlong(image, m, first, q, blast, data');
    WholeIsUnique(MapLinks(m), first, p, q);
  }

  /** Follow a chain, and join its granules up to the length that the entry gives. */
  method ReadChain(image: seq<byte>, granMap: seq<byte>, first: nat, blast: nat) returns (r: Option<seq<byte>>)
    requires |image| == IMAGE_SIZE && |granMap| == TOTAL_GRANS
    ensures r.None? ==> forall p :: !Whole(MapLinks(granMap), first, p)
    ensures r.Some? ==> ReadsAs(image, granMap, first, blast, r.value)
  {
    hide Whole, Joined, GranOffset;
    var followed := FollowChain(granMap, first);
    if followed.None? {
      return None;
    }
    var (grans, sectorsInLast) := followed.value;
    var length := ReadLength(|grans|, sectorsInLast, blast);
    WholeInside(granMap, first, grans);
    var joined := JoinGranules(image, grans);
    r := Some(Front(joined, length));
    assert ReadsAlong(image, granMap, first, grans, blast, r.value);
  }

  method JoinGranules(image: seq<byte>, chain: seq<nat>) returns (joined: seq<byte>)
    requires |image| == IMAGE_SIZE && forall i :: 0 <= i < |chain| ==> chain[i] < TOTAL_GRANS
    ensures joined == Joined(image, chain)
  {
    hide GranOffset;
    joined := [];
    for i := 0 to |chain|
      invariant joined == Joined(image, chain[..i])
    {
      GranulesApart(chain[i], chain[i]);
      var off := GranOffset(chain[i]);
      joined := joined + image[off..off + GRAN_BYTES];
      assert chain[..i + 1][..i] == chain[..i];
    }
    assert chain[..|chain|] == chain;
  }

  lemma {:induction false} JoinedHolds(image: seq<byte>, chain: seq<nat>, data: seq<byte>, k: nat)
    requires |image| == IMAGE_SIZE && (forall i :: 0 <= i < |chain| ==> chain[i] < TOTAL_GRANS) && k <= |chain|
    requires (k - 1) * GRAN_BYTES <= |data| && forall i :: 0 <= i < |chain| ==> ChunkAt(image, data, chain[i], i)
    ensures |Joined(image, chain[..k])| == k * GRAN_BYTES
    ensures Joined(image, chain[..k])[..Lo(GRAN_BYTES, data, k)] == data[..Lo(GRAN_BYTES, data, k)]
  {
    hide GranOffset, Chunk;
    LoSteps(GRAN_BYTES, data, 0);
    if k > 0 {
      var n := k - 1;
      var g := chain[n];
      JoinedHolds(image, chain, data, n);
      GranulesApart(g, g);
      var off := GranOffset(g);
      var block := image[off..off + GRAN_BYTES];
      assert chain[..k][..n] == chain[..n];
      assert ChunkAt(image, data, g, n);
      assert block[..|Chunk(GRAN_BYTES, data, n)|] == image[off..off + |Chunk(GRAN_BYTES, data, n)|];
      JoinChunk(GRAN_BYTES, data, Joined(image, chain[..n]), block, n);
    }
  }

  lemma HeldIsWhole(m: GranMap, chain: seq<nat>, last: int)
    requires |m| == TOTAL_GRANS && IsChain(chain) && chain != [] && Linked(m, chain, last) && 1 <= last
    ensures Whole(MapLinks(m), chain[0], chain) && m[chain[|chain| - 1]] == GRAN_LAST_BASE + last
  {
    forall i | 0 <= i < |chain| - 1 ensures MapLinks(m)(chain[i]) == Goes(chain[i + 1]) {
      assert m[chain[i]] == LinkOf(chain, last, i);
    }
    assert m[chain[|chain| - 1]] == LinkOf(chain, last, |chain| - 1);
  }

  /** A file as written reads as its data. */
  lemma HeldIsRead(image: seq<byte>, m: GranMap, data: seq<byte>, chain: seq<nat>)
    requires |image| == IMAGE_SIZE && |m| == TOTAL_GRANS && FileHolds(image, m, data, chain) && chain != []
    ensures Whole(MapLinks(m), chain[0], chain) && 0 <= BytesInLast(|data|) && ReadsAs(image, m, chain[0], BytesInLast(|data|), data)
  {
    hide Chunk, GranOffset, Grans, SectorsInLast, BytesInLast, Whole, Joined, Linked, ChunkAt;
    Sizes(|data|);
    HeldIsWhole(m, chain, SectorsInLast(|data|));
    JoinedHolds(image, chain, data, |chain|);
    LoSteps(GRAN_BYTES, data, |chain|);
    assert chain[..|chain|] == chain;
    assert ReadsAlong(image, m, chain[0], chain, BytesInLast(|data|), data);
  }

  type FileKey = (seq<byte>, seq<byte>)

  type FileMap = map<FileKey, seq<byte>>

  function FilesOf(files: seq<File>): FileMap {
    if files == [] then map[] else
      var f := files[|files| - 1];
      FilesOf(files[..|files| - 1])[(f.name, f.ext) := f.data]
  }

  /** With different names, the map holds just the files. */
  lemma {:induction false} FilesAreThere(files: seq<File>, name: seq<byte>, ext: seq<byte>)
    requires forall i, j :: 0 <= i < j < |files| ==> (files[i].name, files[i].ext) != (files[j].name, files[j].ext)
    ensures (name, ext) in FilesOf(files) <==> exists i :: 0 <= i < |files| && (files[i].name, files[i].ext) == (name, ext)
    ensures forall i :: 0 <= i < |files| && (files[i].name, files[i].ext) == (name, ext) ==> FilesOf(files)[(name, ext)] == files[i].data
  {
    if files != [] {
      var n := |files| - 1;
      FilesAreThere(files[..n], name, ext);
      assert forall i :: 0 <= i < n ==> files[..n][i] == files[i];
    }
  }

  lemma EntryReads(e: Entry)
    requires EntryFits(e) && 1 <= |e.name| && IsPlain(e.name) && IsPlain(e.ext)
    ensures var s := EntryBytes(e);
      && RStrip(s[0..8]) == e.name && RStrip(s[8..11]) == e.ext && IsAscii(s[0..11]) && s[13] == e.first && s[0] == e.name[0]
      && (var hi: int, lo: int := s[14], s[15]; hi * 256 + lo == e.blast)
  {
    var s := EntryBytes(e);
    assert s[0..8] == PadTo(e.name, 8) && s[8..11] == PadTo(e.ext, 3) && s[0..11] == s[0..8] + s[8..11];
    PadStrips(e.name, 8);
    PadStrips(e.ext, 3);
  }

  function SlotAt(image: seq<byte>, i: nat): (e: seq<byte>)
    requires |image| == IMAGE_SIZE && i < MAX_ENTRIES
    ensures |e| == ENTRY_LEN
  {
    image[DIR_AT + i * ENTRY_LEN..DIR_AT + i * ENTRY_LEN + ENTRY_LEN]
  }

  function MapOf(image: seq<byte>): (m: seq<byte>)
    requires |image| == IMAGE_SIZE
    ensures |m| == TOTAL_GRANS
  {
    image[MAP_AT..MAP_AT + TOTAL_GRANS]
  }

  /** Slot i lists a file: it is not deleted, and the directory has not ended before it. */
  ghost predicate Counts(image: seq<byte>, i: nat)
    requires |image| == IMAGE_SIZE && i < MAX_ENTRIES
  {
    SlotAt(image, i)[0] != 0 && forall j :: 0 <= j <= i ==> SlotAt(image, j)[0] != DIR_END
  }

  ghost predicate Readable(image: seq<byte>, i: nat)
    requires |image| == IMAGE_SIZE && i < MAX_ENTRIES
  {
    IsAscii(SlotAt(image, i)[0..11]) && exists p :: Whole(MapLinks(MapOf(image)), SlotAt(image, i)[13], p)
  }

  function KeyAt(image: seq<byte>, i: nat): FileKey
    requires |image| == IMAGE_SIZE && i < MAX_ENTRIES
  {
    (RStrip(SlotAt(image, i)[0..8]), RStrip(SlotAt(image, i)[8..11]))
  }

  function Blast(e: seq<byte>): nat
    requires |e| == ENTRY_LEN
  {
    var hi: nat, lo: nat := e[14], e[15];
    hi * 256 + lo
  }

  /** The last of the first n slots that lists a file of that name. */
  ghost function LastSlot(image: seq<byte>, n: nat, key: FileKey): (r: Option<nat>)
    requires |image| == IMAGE_SIZE && n <= MAX_ENTRIES
    ensures r.Some? ==> r.value < n && Counts(image, r.value) && KeyAt(image, r.value) == key
  {
    if n == 0 then None
    else if Counts(image, n - 1) && KeyAt(image, n - 1) == key then Some(n - 1)
    else LastSlot(image, n - 1, key)
  }

  /** The map holds, under each name listed, what the last slot of that name reads as. */
  ghost predicate Listing(image: seq<byte>, n: nat, out: FileMap)
    requires |image| == IMAGE_SIZE && n <= MAX_ENTRIES
  {
    && (forall i :: 0 <= i < n && Counts(image, i) ==> Readable(image, i))
    && forall key: FileKey :: ListedAs(image, n, out, key)
  }

  ghost predicate ListedAs(image: seq<byte>, n: nat, out: FileMap, key: FileKey)
    requires |image| == IMAGE_SIZE && n <= MAX_ENTRIES
  {
    var i := LastSlot(image, n, key);
    && (key in out <==> i.Some?)
    && (i.Some? ==> ReadsAs(image, MapOf(image), SlotAt(image, i.value)[13], Blast(SlotAt(image, i.value)), out[key]))
  }

  lemma ListNext(image: seq<byte>, n: nat, out: FileMap, data: seq<byte>)
    requires |image| == IMAGE_SIZE && n < MAX_ENTRIES && Listing(image, n, out) && Readable(image, n)
    requires ReadsAs(image, MapOf(image), SlotAt(image, n)[13], Blast(SlotAt(image, n)), data)
    ensures Counts(image, n) ==> Listing(image, n + 1, out[KeyAt(image, n) := data])
  {
    hide ReadsAs, Counts, KeyAt, Readable, SlotAt, Blast;
    if Counts(image, n) {
      var m, out' := n + 1, out[KeyAt(image, n) := data];
      forall key: FileKey ensures ListedAs(image, m, out', key) {
        assert ListedAs(image, n, out, key);
      }
    }
  }

  lemma ListSkip(image: seq<byte>, n: nat, out: FileMap)
    requires |image| == IMAGE_SIZE && n < MAX_ENTRIES && Listing(image, n, out) && !Counts(image, n)
    ensures Listing(image, n + 1, out)
  {
    hide ReadsAs, Counts, KeyAt, Readable, SlotAt, Blast;
    var m := n + 1;
    forall key: FileKey ensures ListedAs(image, m, out, key) {
      assert ListedAs(image, n, out, key);
    }
  }

  lemma {:induction false} ListEnd(image: seq<byte>, n: nat, out: FileMap)
    requires |image| == IMAGE_SIZE && n < MAX_ENTRIES && Listing(image, n, out) && SlotAt(image, n)[0] == DIR_END
    ensures Listing(image, MAX_ENTRIES, out)
  {
    hide Listing;
    for m := n to MAX_ENTRIES
      invariant Listing(image, m, out)
    {
      assert !Counts(image, m);
      ListSkip(image, m, out);
    }
  }

  lemma ListStart(image: seq<byte>)
    requires |image| == IMAGE_SIZE
    ensures Listing(image, 0, map[])
  {
  }

  /** Read a whole disk, whatever is on it. It is an error if a file listed has a name that is not
      ASCII, or a chain that does not end within the map, and only then. */
  method Extract(image: seq<byte>) returns (r: Option<FileMap>)
    requires |image| == IMAGE_SIZE
    ensures r.None? ==> exists i :: 0 <= i < MAX_ENTRIES && Counts(image, i) && !Readable(image, i)
    ensures r.Some? ==> Listing(image, MAX_ENTRIES, r.value)
  {
    hide Listing, SlotAt, MapOf, Whole, ReadsAs, IsAscii;
    var granMap := MapOf(image);
    var out: FileMap := map[];
    ListStart(image);
    for i := 0 to MAX_ENTRIES
      invariant Listing(image, i, out) && forall j :: 0 <= j < i ==> SlotAt(image, j)[0] != DIR_END
    {
      var e := SlotAt(image, i);
      if e[0] == DIR_END {
        ListEnd(image, i, out);
        return Some(out);
      }
      if e[0] == 0 {
        ListSkip(image, i, out);
        continue;
      }
      if !IsAscii(e[0..11]) {
        assert Counts(image, i) && !Readable(image, i);
        return None;
      }
      var data := ReadChain(image, granMap, e[13], Blast(e));
      if data.None? {
        assert Counts(image, i) && !Readable(image, i);
        return None;
      }
      ReadsSome(image, granMap, e[13], Blast(e), data.value);
      ListNext(image, i, out, data.value);
      out := out[(RStrip(e[0..8]), RStrip(e[8..11])) := data.value];
    }
    r := Some(out);
  }

  lemma ReadsSome(image: seq<byte>, m: GranMap, first: nat, blast: nat, data: seq<byte>)
    requires |image| == IMAGE_SIZE && |m| == TOTAL_GRANS && ReadsAs(image, m, first, blast, data)
    ensures exists p :: Whole(MapLinks(m), first, p)
  {
    hide Whole;
  }

  lemma SlotMeans(image: seq<byte>, entries: seq<Entry>, files: seq<File>, chains: seq<seq<nat>>, i: nat)
    requires |image| == IMAGE_SIZE && Describes(entries, files, chains) && i < MAX_ENTRIES
    requires (forall k :: 0 <= k < |entries| ==> EntryFits(entries[k])) && SlotHolds(image, entries, i)
    ensures var e := SlotAt(image, i);
      if i >= |files| then e[0] == DIR_END else
        && e[0] != 0 && e[0] != DIR_END && IsAscii(e[0..11]) && KeyAt(image, i) == (files[i].name, files[i].ext)
        && chains[i] != [] && e[13] == chains[i][0] && Blast(e) == BytesInLast(|files[i].data|)
  {
    hide EntryBytes, RStrip, BytesInLast, IsAscii, IsPlain;
    if i < |files| {
      EntryReads(entries[i]);
      PlainStart(files[i].name);
    }
  }

  lemma PlainStart(s: seq<byte>)
    requires IsPlain(s) && s != []
    ensures s[0] < 128
  {
  }

  /** On a disk as written, slot i lists file i. */
  ghost predicate Written(image: seq<byte>, files: seq<File>, i: nat)
    requires |image| == IMAGE_SIZE && i < MAX_ENTRIES
  {
    if i >= |files| then !Counts(image, i) else
      && Counts(image, i) && Readable(image, i) && KeyAt(image, i) == (files[i].name, files[i].ext)
      && ReadsAs(image, MapOf(image), SlotAt(image, i)[13], Blast(SlotAt(image, i)), files[i].data)
  }

  lemma SlotIsWritten(image: seq<byte>, files: seq<File>, chains: seq<seq<nat>>, m: GranMap, entries: seq<Entry>, i: nat)
    requires |image| == IMAGE_SIZE && |m| == TOTAL_GRANS && DiskHolds(image, m, files, chains) && Describes(entries, files, chains)
    requires (forall k :: 0 <= k < |entries| ==> EntryFits(entries[k])) && Serialised(image, m, entries) && i < MAX_ENTRIES
    ensures Written(image, files, i)
  {
    hide FileHolds, EntryBytes, EntryFor, RStrip, BytesInLast, SlotHolds, IsAscii, SlotAt, Whole, ReadsAs, KeyAt, Blast, IsPlain;
    forall j | 0 <= j < MAX_ENTRIES ensures j < |files| ==> SlotAt(image, j)[0] != DIR_END {
      SlotMeans(image, entries, files, chains, j);
    }
    SlotMeans(image, entries, files, chains, i);
    if i < |files| {
      assert FileHolds(image, m, files[i].data, chains[i]);
      HeldIsRead(image, m, files[i].data, chains[i]);
      assert MapOf(image) == m;
    }
  }

  lemma {:induction false} LastFile(image: seq<byte>, files: seq<File>, n: nat, key: FileKey)
    requires |image| == IMAGE_SIZE && n <= MAX_ENTRIES && forall i :: 0 <= i < n ==> Written(image, files, i)
    ensures var known, i := FilesOf(files[..Min(n, |files|)]), LastSlot(image, n, key);
      (key in known <==> i.Some?) && (i.Some? ==> i.value < |files| && known[key] == files[i.value].data)
  {
    hide Counts, Readable, ReadsAs, KeyAt, Blast, SlotAt;
    if n > 0 {
      LastFile(image, files, n - 1, key);
      assert Written(image, files, n - 1);
      if n <= |files| { assert files[..n][..n - 1] == files[..n - 1]; }
    }
  }

  /** So what is listed on a disk as written is its files. */
  lemma ListingIsFiles(image: seq<byte>, files: seq<File>, out: FileMap)
    requires |image| == IMAGE_SIZE && |files| <= MAX_ENTRIES && Listing(image, MAX_ENTRIES, out)
    requires forall i :: 0 <= i < MAX_ENTRIES ==> Written(image, files, i)
    ensures out == FilesOf(files)
  {
    hide Counts, Readable, ReadsAs, KeyAt, Blast, SlotAt, FilesOf, LastSlot;
    assert files[..|files|] == files;
    forall key: FileKey ensures (key in out <==> key in FilesOf(files)) && (key in out ==> out[key] == FilesOf(files)[key]) {
      LastFile(image, files, MAX_ENTRIES, key);
      assert ListedAs(image, MAX_ENTRIES, out, key);
      var i := LastSlot(image, MAX_ENTRIES, key);
      if i.Some? {
        assert Written(image, files, i.value);
        ReadsOneWay(image, MapOf(image), SlotAt(image, i.value)[13], Blast(SlotAt(image, i.value)), out[key], files[i.value].data);
      }
    }
    assert out.Keys == FilesOf(files).Keys;
  }

  /** Put files on a fresh disk and read them back. Exactly the lists of at most 72 files and 68
      granules are taken, and all of those come back whole. */
  method RoundTrip(files: seq<File>) returns (ok: bool, out: FileMap)
    requires forall i :: 0 <= i < |files| ==> NameFits(files[i])
    ensures ok <==> |files| <= MAX_ENTRIES && GransOf(files) <= TOTAL_GRANS
    ensures ok ==> out == FilesOf(files)
  {
    hide DiskHolds, GransOf, NameFits, EntryFor, Describes, FilesOf, Written, Counts, Readable, Listing, Serialised;
    var d := new Disk();
    ghost var chains := [];
    out := map[];
    assert files[..0] == [];
    NothingDescribed();
    for i := 0 to |files|
      invariant d.Sized() && fresh(d) && fresh(d.image) && |chains| == i == |d.entries|
      invariant DiskHolds(d.image[..], d.granMap, files[..i], chains) && Describes(d.entries, files[..i], chains)
    {
      NextFits(files, i);
      assert files[..i + 1] == files[..i] + [files[i]];
      ghost var chain, entries := [], d.entries;
      ok, chain := AddFile(d, files[i], files[..i], chains);
      if !ok {
        return;
      }
      NextDescribed(entries, files[..i], chains, files[i], chain);
      chains := chains + [chain];
    }
    assert files[..|files|] == files;
    MapIsBytes(d.image[..], d.granMap, files, chains);
    Build(d, files, chains);
    AllFits(d.image[..], d.granMap, files, chains, d.entries);
    var extracted := Extract(d.image[..]);
    forall i | 0 <= i < MAX_ENTRIES ensures Written(d.image[..], files, i) {
      SlotIsWritten(d.image[..], files, chains, d.granMap, d.entries, i);
    }
    AllReadable(d.image[..], files);
    out := extracted.value;
    ListingIsFiles(d.image[..], files, out);
    ok := true;
  }

  lemma AllReadable(image: seq<byte>, files: seq<File>)
    requires |image| == IMAGE_SIZE && forall i :: 0 <= i < MAX_ENTRIES ==> Written(image, files, i)
    ensures forall i :: 0 <= i < MAX_ENTRIES && Counts(image, i) ==> Readable(image, i)
  {
    hide Counts, Readable, ReadsAs, KeyAt, Blast, SlotAt;
    forall i | 0 <= i < MAX_ENTRIES && Counts(image, i) ensures Readable(image, i) { assert Written(image, files, i); }
  }

  lemma NothingDescribed()
    ensures Describes([], [], [])
  {
  }

  lemma NextDescribed(entries: seq<Entry>, files: seq<File>, chains: seq<seq<nat>>, f: File, chain: seq<nat>)
    requires Describes(entries, files, chains) && |entries| < MAX_ENTRIES && NameFits(f) && chain != [] && chain[0] < TOTAL_GRANS
    ensures Describes(entries + [EntryFor(f, chain[0])], files + [f], chains + [chain])
  {
  }

  lemma {:induction false} GransGrow(files: seq<File>, i: nat)
    requires i <= |files|
    ensures GransOf(files[..i]) <= GransOf(files)
  {
    if i == |files| {
      assert files[..i] == files;
    } else {
      GransGrow(files[..|files| - 1], i);
      assert files[..|files| - 1][..i] == files[..i];
    }
  }

  /** What taking all the files demands of file i. */
  lemma NextFits(files: seq<File>, i: nat)
    requires i < |files|
    ensures GransOf(files[..i + 1]) == GransOf(files[..i]) + Grans(|files[i].data|)
    ensures GransOf(files[..i + 1]) <= GransOf(files)
  {
    assert files[..i + 1][..i] == files[..i];
    GransGrow(files, i + 1);
  }

  lemma MapIsBytes(image: seq<byte>, m: GranMap, files: seq<File>, chains: seq<seq<nat>>)
    requires |image| == IMAGE_SIZE && |m| == TOTAL_GRANS && DiskHolds(image, m, files, chains)
    ensures forall g :: 0 <= g < TOTAL_GRANS ==> m[g] < 256
  {
  }

  lemma AllFits(image: seq<byte>, m: GranMap, files: seq<File>, chains: seq<seq<nat>>, entries: seq<Entry>)
    requires |image| == IMAGE_SIZE && |m| == TOTAL_GRANS && DiskHolds(image, m, files, chains) && Describes(entries, files, chains)
    ensures GransOf(files) <= TOTAL_GRANS && |files| <= MAX_ENTRIES
  {
  }
}
