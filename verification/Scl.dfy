/** SCL images: files packed by one program, and laid out again on a TR-DOS disk by another. */
module Scl {
  import opened Arithmetic
  import opened Wrappers
  import opened ByteStrings
  import opened Sequences

  const SECTOR := 256
  const MAGIC: seq<byte> := [83, 73, 78, 67, 76, 65, 73, 82]
  const MAX_FILES := 128
  const HEADER_LEN := 9
  const ENTRY_LEN := 14
  const CATALOG_ENTRY_LEN := 16
  const SECTORS_PER_TRACK := 16
  const ALL_SECTORS := 2560
  const FREE_SECTORS := 2544
  const TRD_SIZE := 655360
  const SYSTEM := 2048
  const DISK_TYPE_DS80: byte := 0x16
  const TRDOS_ID: byte := 0x10

  datatype Error = TooManyFiles | TooManySectors | FileTooLong(index: nat) | NotScl | Truncated | Overflow

  datatype File = File(name: seq<byte>, data: seq<byte>)

  // ---- An SCL image, as its reader parses it ----

  function CountOf(scl: seq<byte>): nat
    requires |scl| >= HEADER_LEN
  {
    scl[8]
  }

  predicate HasCatalogue(scl: seq<byte>) {
    |scl| >= HEADER_LEN && scl[..8] == MAGIC && CountOf(scl) <= MAX_FILES && |scl| >= HEADER_LEN + CountOf(scl) * ENTRY_LEN
  }

  function EntryOf(scl: seq<byte>, i: nat): (e: seq<byte>)
    requires HasCatalogue(scl) && i < CountOf(scl)
    ensures |e| == ENTRY_LEN
  {
    scl[HEADER_LEN + i * ENTRY_LEN..HEADER_LEN + i * ENTRY_LEN + ENTRY_LEN]
  }

  function SectorsOf(scl: seq<byte>, i: nat): nat
    requires HasCatalogue(scl) && i < CountOf(scl)
  {
    EntryOf(scl, i)[13]
  }

  /** The sectors of the first i files. */
  function Before(scl: seq<byte>, i: nat): nat
    requires HasCatalogue(scl) && i <= CountOf(scl)
  {
    if i == 0 then 0 else Before(scl, i - 1) + SectorsOf(scl, i - 1)
  }

  function DataAt(scl: seq<byte>, i: nat): nat
    requires HasCatalogue(scl) && i <= CountOf(scl)
  {
    HEADER_LEN + CountOf(scl) * ENTRY_LEN + SECTOR * Before(scl, i)
  }

  /** The image is whole, and its files fit on a disk. */
  predicate Packed(scl: seq<byte>) {
    HasCatalogue(scl) && DataAt(scl, CountOf(scl)) <= |scl| && Before(scl, CountOf(scl)) <= FREE_SECTORS
  }

  lemma {:induction false} BeforeGrows(scl: seq<byte>, i: nat, j: nat)
    requires HasCatalogue(scl) && i <= j <= CountOf(scl)
    ensures Before(scl, i) <= Before(scl, j)
    ensures i < j ==> Before(scl, i) + SectorsOf(scl, i) <= Before(scl, j)
  {
    if i < j {
      BeforeGrows(scl, i, j - 1);
    }
  }

  // ---- A TR-DOS disk holding the files of an image ----

  /** File i lies in one stretch after the files before it, and its catalogue entry says where. */
  ghost predicate FilePlaced(scl: seq<byte>, trd: seq<byte>, i: nat)
    requires HasCatalogue(scl) && i < CountOf(scl)
  {
    var start, n := SECTORS_PER_TRACK + Before(scl, i), SectorsOf(scl, i);
    && |trd| == TRD_SIZE && start + n <= ALL_SECTORS && DataAt(scl, i) + SECTOR * n <= |scl|
    && trd[i * CATALOG_ENTRY_LEN..i * CATALOG_ENTRY_LEN + ENTRY_LEN] == EntryOf(scl, i)
    && trd[i * CATALOG_ENTRY_LEN + 14] == start % SECTORS_PER_TRACK && trd[i * CATALOG_ENTRY_LEN + 15] == start / SECTORS_PER_TRACK
    && trd[SECTOR * start..SECTOR * (start + n)] == scl[DataAt(scl, i)..DataAt(scl, i) + SECTOR * n]
  }

  ghost predicate SystemSector(trd: seq<byte>, count: nat, used: nat) {
    && |trd| == TRD_SIZE && used <= FREE_SECTORS
    && trd[SYSTEM + 0xE1] == (SECTORS_PER_TRACK + used) % SECTORS_PER_TRACK && trd[SYSTEM + 0xE2] == (SECTORS_PER_TRACK + used) / SECTORS_PER_TRACK
    && trd[SYSTEM + 0xE3] == DISK_TYPE_DS80 && trd[SYSTEM + 0xE4] == count && trd[SYSTEM + 0xE7] == TRDOS_ID
    && Free(trd) == FREE_SECTORS - used && trd[SYSTEM + 0xF4] == 0
    && forall k :: SYSTEM + 0xF5 <= k < SYSTEM + 0xFD ==> trd[k] == 32
  }

  function Free(trd: seq<byte>): nat
    requires |trd| == TRD_SIZE
  {
    var low: int, high: int := trd[SYSTEM + 0xE5], trd[SYSTEM + 0xE6];
    low + 256 * high
  }

  ghost predicate Reconstructed(scl: seq<byte>, trd: seq<byte>)
    requires HasCatalogue(scl)
  {
    && (forall i :: 0 <= i < CountOf(scl) ==> FilePlaced(scl, trd, i))
    && SystemSector(trd, CountOf(scl), Before(scl, CountOf(scl)))
  }

  // ---- The reconstruction ----

  /** The disk with the data and the catalogue entry of one more file. */
  function WithFile(trd: seq<byte>, i: nat, entry: seq<byte>, start: nat, data: seq<byte>): (r: seq<byte>)
    requires |trd| == TRD_SIZE && i < MAX_FILES && |entry| == ENTRY_LEN
    requires start <= ALL_SECTORS && SECTOR * start + |data| <= TRD_SIZE
    ensures |r| == TRD_SIZE
  {
    Patch(Patch(trd, SECTOR * start, data), i * CATALOG_ENTRY_LEN, entry + [start % SECTORS_PER_TRACK, start / SECTORS_PER_TRACK])
  }

  lemma FileIsPlaced(scl: seq<byte>, trd: seq<byte>, i: nat)
    requires HasCatalogue(scl) && i < CountOf(scl) && |trd| == TRD_SIZE
    requires DataAt(scl, i) + SECTOR * SectorsOf(scl, i) <= |scl| && SECTORS_PER_TRACK + Before(scl, i) + SectorsOf(scl, i) <= ALL_SECTORS
    ensures var start := SECTORS_PER_TRACK + Before(scl, i);
      FilePlaced(scl, WithFile(trd, i, EntryOf(scl, i), start, scl[DataAt(scl, i)..DataAt(scl, i) + SECTOR * SectorsOf(scl, i)]), i)
  {
    hide Before, EntryOf, DataAt, SectorsOf;
    var start, n, cat := SECTORS_PER_TRACK + Before(scl, i), SECTOR * SectorsOf(scl, i), i * CATALOG_ENTRY_LEN;
    var data := scl[DataAt(scl, i)..DataAt(scl, i) + n];
    var r := WithFile(trd, i, EntryOf(scl, i), start, data);
    assert r[cat..cat + ENTRY_LEN] == EntryOf(scl, i);
    assert r[SECTOR * start..SECTOR * start + n] == data;
  }

  lemma OthersKept(scl: seq<byte>, trd: seq<byte>, j: nat, i: nat, data: seq<byte>)
    requires HasCatalogue(scl) && j < i < CountOf(scl) && FilePlaced(scl, trd, j)
    requires Before(scl, j) + SectorsOf(scl, j) <= Before(scl, i) && SECTOR * (SECTORS_PER_TRACK + Before(scl, i)) + |data| <= TRD_SIZE
    ensures FilePlaced(scl, WithFile(trd, i, EntryOf(scl, i), SECTORS_PER_TRACK + Before(scl, i), data), j)
  {
    hide Before, EntryOf, DataAt, SectorsOf;
    var start, n, cat := SECTORS_PER_TRACK + Before(scl, j), SectorsOf(scl, j), j * CATALOG_ENTRY_LEN;
    var r := WithFile(trd, i, EntryOf(scl, i), SECTORS_PER_TRACK + Before(scl, i), data);
    assert r[cat..cat + ENTRY_LEN] == trd[cat..cat + ENTRY_LEN];
    assert r[SECTOR * start..SECTOR * (start + n)] == trd[SECTOR * start..SECTOR * (start + n)];
  }

  /** Lay one file's sectors down, and write its catalogue entry. */
  method PlaceFile(scl: seq<byte>, trd: array<byte>, i: nat, dataPos: nat, nextSector: nat)
    requires HasCatalogue(scl) && i < CountOf(scl) && trd.Length == TRD_SIZE
    requires dataPos == DataAt(scl, i) && nextSector == SECTORS_PER_TRACK + Before(scl, i)
    requires dataPos + SECTOR * SectorsOf(scl, i) <= |scl| && nextSector + SectorsOf(scl, i) <= ALL_SECTORS
    requires forall j :: 0 <= j < i ==> FilePlaced(scl, trd[..], j)
    modifies trd
    ensures forall j :: 0 <= j <= i ==> FilePlaced(scl, trd[..], j)
  {
    hide Before, EntryOf, FilePlaced, WithFile, DataAt, SectorsOf;
    ghost var before := trd[..];
    var entry := EntryOf(scl, i);
    var data := scl[dataPos..dataPos + SECTOR * SectorsOf(scl, i)];
    CopyInto(trd, nextSector * SECTOR, data);
    CopyInto(trd, i * CATALOG_ENTRY_LEN, entry + [nextSector % SECTORS_PER_TRACK, nextSector / SECTORS_PER_TRACK]);
    WithFileIs(before, trd[..], i, entry, nextSector, data);
    FileIsPlaced(scl, before, i);
    forall j | 0 <= j < i ensures FilePlaced(scl, trd[..], j) {
      BeforeGrows(scl, j, i);
      OthersKept(scl, before, j, i, data);
    }
  }

  /** Lay the files of an image out on an empty disk. It is refused exactly if it is not whole, or
      does not fit. */
  method ReconstructTrd(scl: seq<byte>) returns (r: Result<array<byte>, Error>)
    ensures r.Ok? <==> Packed(scl)
    ensures r.Ok? ==> Reconstructed(scl, r.value[..])
  {
    hide Before, EntryOf, FilePlaced, WithFile, SystemSector;
    if |scl| < HEADER_LEN || scl[..8] != MAGIC {
      return Err(NotScl);
    }
    var count: nat := scl[8];
    if count > MAX_FILES {
      return Err(TooManyFiles);
    }
    var dirEnd := HEADER_LEN + count * ENTRY_LEN;
    if |scl| < dirEnd {
      return Err(Truncated);
    }
    var trd := new byte[TRD_SIZE](_ => 0);
    var dataPos, nextSector, used := dirEnd, SECTORS_PER_TRACK, 0;
    NothingBefore(scl);
    for i := 0 to count
      invariant used == Before(scl, i) && nextSector == SECTORS_PER_TRACK + used && dataPos == DataAt(scl, i) <= |scl| && nextSector <= ALL_SECTORS
      invariant forall j :: 0 <= j < i ==> FilePlaced(scl, trd[..], j)
      invariant fresh(trd) && trd.Length == TRD_SIZE
    {
      var entry := EntryOf(scl, i);
      var sectors: nat := entry[13];
      var nbytes := sectors * SECTOR;
      BeforeNext(scl, i);
      if dataPos + nbytes > |scl| {
        return Err(Truncated);
      }
      if nextSector + sectors > ALL_SECTORS {
        return Err(Overflow);
      }
      PlaceFile(scl, trd, i, dataPos, nextSector);
      dataPos := dataPos + nbytes;
      nextSector := nextSector + sectors;
      used := used + sectors;
    }
    ghost var files := trd[..];
    WriteSystemSector(trd, count, nextSector, used);
    forall i | 0 <= i < count ensures FilePlaced(scl, trd[..], i) {
      SystemApart(scl, files, trd[..], i);
    }
    r := Ok(trd);
  }

  lemma NothingBefore(scl: seq<byte>)
    requires HasCatalogue(scl)
    ensures Before(scl, 0) == 0
  {
  }

  /** What being packed demands of file i. */
  lemma BeforeNext(scl: seq<byte>, i: nat)
    requires HasCatalogue(scl) && i < CountOf(scl)
    ensures Before(scl, i + 1) == Before(scl, i) + SectorsOf(scl, i) && DataAt(scl, i + 1) == DataAt(scl, i) + SECTOR * SectorsOf(scl, i)
    ensures Packed(scl) ==> DataAt(scl, i + 1) <= |scl| && Before(scl, i + 1) <= FREE_SECTORS
  {
    BeforeGrows(scl, i + 1, CountOf(scl));
  }

  lemma WithFileIs(before: seq<byte>, after: seq<byte>, i: nat, entry: seq<byte>, start: nat, data: seq<byte>)
    requires |before| == TRD_SIZE && i < MAX_FILES && |entry| == ENTRY_LEN && start <= ALL_SECTORS && SECTOR * start + |data| <= TRD_SIZE
    requires after == Patch(Patch(before, start * SECTOR, data), i * CATALOG_ENTRY_LEN, entry + [start % SECTORS_PER_TRACK, start / SECTORS_PER_TRACK])
    ensures after == WithFile(before, i, entry, start, data)
  {
  }

  /** The disk specification. */
  method WriteSystemSector(trd: array<byte>, count: byte, nextSector: nat, used: nat)
    requires trd.Length == TRD_SIZE && used <= FREE_SECTORS && nextSector == SECTORS_PER_TRACK + used
    modifies trd
    ensures SystemSector(trd[..], count, used)
    ensures forall k :: 0 <= k < TRD_SIZE && !(SYSTEM <= k < SYSTEM + SECTOR) ==> trd[k] == old(trd[k])
  {
    var free := FREE_SECTORS - used;
    trd[SYSTEM + 0xE1] := nextSector % SECTORS_PER_TRACK;
    trd[SYSTEM + 0xE2] := nextSector / SECTORS_PER_TRACK;
    trd[SYSTEM + 0xE3] := DISK_TYPE_DS80;
    trd[SYSTEM + 0xE4] := count;
    trd[SYSTEM + 0xE5] := free % 256;
    trd[SYSTEM + 0xE6] := free / 256 % 256;
    trd[SYSTEM + 0xE7] := TRDOS_ID;
    trd[SYSTEM + 0xF4] := 0;
    forall k | SYSTEM + 0xF5 <= k < SYSTEM + 0xFD {
      trd[k] := 32;
    }
  }

  lemma SystemApart(scl: seq<byte>, before: seq<byte>, after: seq<byte>, i: nat)
    requires HasCatalogue(scl) && i < CountOf(scl) && FilePlaced(scl, before, i) && |after| == TRD_SIZE
    requires forall k :: 0 <= k < TRD_SIZE && !(SYSTEM <= k < SYSTEM + SECTOR) ==> after[k] == before[k]
    ensures FilePlaced(scl, after, i)
  {
    hide Before, EntryOf, DataAt, SectorsOf;
    var start, n, cat := SECTORS_PER_TRACK + Before(scl, i), SectorsOf(scl, i), i * CATALOG_ENTRY_LEN;
    assert after[cat..cat + ENTRY_LEN] == before[cat..cat + ENTRY_LEN];
    assert after[SECTOR * start..SECTOR * (start + n)] == before[SECTOR * start..SECTOR * (start + n)];
  }

  // ---- The packer ----

  function SectorsFor(length: nat): nat {
    (length + SECTOR - 1) / SECTOR
  }

  function Fill(n: nat, b: byte): (s: seq<byte>)
    ensures |s| == n && forall i :: 0 <= i < n ==> s[i] == b
  {
    seq(n, _ => b)
  }

  function DirEntry(f: File, addr: nat): (e: seq<byte>)
    requires |f.name| <= 8 && SectorsFor(|f.data|) < 256
    ensures |e| == ENTRY_LEN && e[13] == SectorsFor(|f.data|)
  {
    f.name + Fill(8 - |f.name|, 32) + [67] + LE16(addr % 65536) + LE16(|f.data| % 65536) + [SectorsFor(|f.data|)]
  }

  /** A file's data, filled up to whole sectors. */
  function Padded(data: seq<byte>): (s: seq<byte>)
    ensures |s| == SECTOR * SectorsFor(|data|) && data <= s
  {
    data + Fill(SECTOR * SectorsFor(|data|) - |data|, 0)
  }

  function Sum(files: seq<File>): nat {
    if files == [] then 0 else Sum(files[..|files| - 1]) + SectorsFor(|files[|files| - 1].data|)
  }

  predicate Named(files: seq<File>) {
    forall i :: 0 <= i < |files| ==> |files[i].name| <= 8
  }

  predicate Short(files: seq<File>) {
    forall i :: 0 <= i < |files| ==> SectorsFor(|files[i].data|) < 256
  }

  /** Whether the files can be packed, and fit on a disk. */
  predicate Fits(files: seq<File>) {
    |files| <= MAX_FILES && Sum(files) <= FREE_SECTORS && Short(files)
  }

  function Entries(files: seq<File>, addr: nat): (s: seq<byte>)
    requires Named(files) && Short(files)
    ensures |s| == ENTRY_LEN * |files|
  {
    if files == [] then [] else Entries(files[..|files| - 1], addr) + DirEntry(files[|files| - 1], addr)
  }

  function AllData(files: seq<File>): (s: seq<byte>)
    ensures |s| == SECTOR * Sum(files)
  {
    if files == [] then [] else AllData(files[..|files| - 1]) + Padded(files[|files| - 1].data)
  }

  lemma {:induction false} EntryIn(files: seq<File>, addr: nat, i: nat)
    requires Named(files) && Short(files) && i < |files|
    ensures Entries(files, addr)[i * ENTRY_LEN..i * ENTRY_LEN + ENTRY_LEN] == DirEntry(files[i], addr)
  {
    hide DirEntry;
    var m, s := |files| - 1, Entries(files, addr);
    if i < m {
      EntryIn(files[..m], addr, i);
      assert s[i * ENTRY_LEN..i * ENTRY_LEN + ENTRY_LEN] == Entries(files[..m], addr)[i * ENTRY_LEN..i * ENTRY_LEN + ENTRY_LEN];
    } else {
      assert s[m * ENTRY_LEN..m * ENTRY_LEN + ENTRY_LEN] == DirEntry(files[m], addr);
    }
  }

  lemma {:induction false} DataIn(files: seq<File>, i: nat)
    requires i < |files|
    ensures Sum(files[..i]) + SectorsFor(|files[i].data|) <= Sum(files)
    ensures AllData(files)[SECTOR * Sum(files[..i])..SECTOR * (Sum(files[..i]) + SectorsFor(|files[i].data|))] == Padded(files[i].data)
  {
    hide Padded, SectorsFor;
    var m := |files| - 1;
    var before, last := AllData(files[..m]), Padded(files[m].data);
    if i < m {
      DataIn(files[..m], i);
      assert files[..m][..i] == files[..i];
      SliceOfFront(before, last, SECTOR * Sum(files[..i]), SECTOR * (Sum(files[..i]) + SectorsFor(|files[i].data|)));
    } else {
      SliceOfBack(before, last, 0, |last|);
    }
  }

  function ByteSum(s: seq<byte>): nat {
    if s == [] then 0 else ByteSum(s[..|s| - 1]) + s[|s| - 1]
  }

  /** The image that the packer makes. */
  function Body(files: seq<File>, addr: nat): seq<byte>
    requires Named(files) && Fits(files)
  {
    MAGIC + [|files|] + Entries(files, addr) + AllData(files)
  }

  method CreateScl(files: seq<File>, addr: nat) returns (r: Result<seq<byte>, Error>)
    requires Named(files)
    ensures r.Ok? <==> Fits(files)
    ensures r.Ok? ==> r.value == Body(files, addr) + LE32(ByteSum(Body(files, addr)) % 0x1_0000_0000)
  {
    hide DirEntry, Padded, SectorsFor, Sum, Entries, AllData, ByteSum, LE32;
    if |files| > MAX_FILES {
      return Err(TooManyFiles);
    }
    var total := 0;
    NothingYet(addr);
    for i := 0 to |files|
      invariant total == Sum(files[..i])
    {
      OneMore(files, addr, i);
      total := total + SectorsFor(|files[i].data|);
    }
    assert files[..|files|] == files;
    if total > FREE_SECTORS {
      return Err(TooManySectors);
    }
    var body := MAGIC + [|files|];
    for i := 0 to |files|
      invariant Short(files[..i]) && Named(files[..i]) && body == MAGIC + [|files|] + Entries(files[..i], addr)
    {
      if SectorsFor(|files[i].data|) >= 256 {
        return Err(FileTooLong(i));
      }
      OneMore(files, addr, i);
      body := body + DirEntry(files[i], addr);
    }
    for i := 0 to |files|
      invariant body == MAGIC + [|files|] + Entries(files, addr) + AllData(files[..i])
    {
      OneMore(files, addr, i);
      body := body + Padded(files[i].data);
    }
    r := Ok(body + LE32(ByteSum(body) % 0x1_0000_0000));
  }

  lemma NothingYet(addr: nat)
    ensures Sum([]) == 0 && Entries([], addr) == [] && AllData([]) == []
  {
  }

  lemma OneMore(files: seq<File>, addr: nat, i: nat)
    requires i < |files| && Named(files)
    ensures Sum(files[..i + 1]) == Sum(files[..i]) + SectorsFor(|files[i].data|)
    ensures AllData(files[..i + 1]) == AllData(files[..i]) + Padded(files[i].data)
    ensures Short(files[..i + 1]) <==> Short(files[..i]) && SectorsFor(|files[i].data|) < 256
    ensures Short(files[..i + 1]) ==> Entries(files[..i + 1], addr) == Entries(files[..i], addr) + DirEntry(files[i], addr)
  {
    hide DirEntry, Padded, SectorsFor;
    assert files[..i + 1][..i] == files[..i];
    assert files[..i + 1] == files[..i] + [files[i]];
  }

  // ---- Round trip ----

  lemma {:induction false} BodyParses(files: seq<File>, addr: nat, scl: seq<byte>, i: nat)
    requires Named(files) && Fits(files) && Body(files, addr) <= scl && i <= |files|
    ensures HasCatalogue(scl) && CountOf(scl) == |files| && Before(scl, i) == Sum(files[..i])
    ensures i < |files| ==> EntryOf(scl, i) == DirEntry(files[i], addr)
  {
    hide DirEntry, SectorsFor, Sum;
    var body := Body(files, addr);
    assert body[..8] == MAGIC && body[8] == |files|;
    assert scl[..8] == MAGIC && scl[8] == |files|;
    if i < |files| {
      BodyEntry(files, addr, scl, i);
    }
    if i == 0 {
      assert files[..0] == [];
      EmptySum();
    } else {
      BodyParses(files, addr, scl, i - 1);
      assert files[..i][..i - 1] == files[..i - 1];
      SumNext(files[..i]);
      assert SectorsOf(scl, i - 1) == SectorsFor(|files[i - 1].data|);
    }
  }

  lemma BodyEntry(files: seq<File>, addr: nat, scl: seq<byte>, i: nat)
    requires Named(files) && Fits(files) && Body(files, addr) <= scl && i < |files|
    requires HasCatalogue(scl) && CountOf(scl) == |files|
    ensures EntryOf(scl, i) == DirEntry(files[i], addr)
  {
    hide DirEntry, SectorsFor, Sum;
    var body := Body(files, addr);
    EntryIn(files, addr, i);
    var lo := HEADER_LEN + i * ENTRY_LEN;
    assert scl[lo..lo + ENTRY_LEN] == body[lo..lo + ENTRY_LEN] == Entries(files, addr)[i * ENTRY_LEN..i * ENTRY_LEN + ENTRY_LEN];
  }

  lemma EmptySum()
    ensures Sum([]) == 0
  {
  }

  lemma SumNext(files: seq<File>)
    requires files != []
    ensures Sum(files) == Sum(files[..|files| - 1]) + SectorsFor(|files[|files| - 1].data|)
  {
  }

  lemma BodySectors(files: seq<File>, addr: nat, scl: seq<byte>, i: nat)
    requires Named(files) && Fits(files) && i < |files| && HasCatalogue(scl) && CountOf(scl) == |files| && EntryOf(scl, i) == DirEntry(files[i], addr)
    ensures SectorsOf(scl, i) == SectorsFor(|files[i].data|)
  {
    hide SectorsFor, Sum;
  }

  lemma BodyData(files: seq<File>, addr: nat, scl: seq<byte>, i: nat)
    requires Named(files) && Fits(files) && Body(files, addr) <= scl && i < |files|
    ensures HasCatalogue(scl) && CountOf(scl) == |files| && SectorsOf(scl, i) == SectorsFor(|files[i].data|)
    ensures var n := SECTOR * SectorsFor(|files[i].data|);
      DataAt(scl, i) + n <= |scl| && scl[DataAt(scl, i)..DataAt(scl, i) + n] == Padded(files[i].data)
  {
    hide DirEntry, SectorsFor, Sum, Padded, AllData, Entries;
    BodyParses(files, addr, scl, i);
    BodySectors(files, addr, scl, i);
    DataIn(files, i);
    var head, all := MAGIC + [|files|] + Entries(files, addr), AllData(files);
    var lo, hi := SECTOR * Sum(files[..i]), SECTOR * (Sum(files[..i]) + SectorsFor(|files[i].data|));
    SliceOfBack(head, all, lo, hi);
    SliceOfPrefix(head + all, scl, |head| + lo, |head| + hi);
  }

  /** What is packed is whole, and fits. */
  lemma BodyIsPacked(files: seq<File>, addr: nat, scl: seq<byte>)
    requires Named(files) && Fits(files) && Body(files, addr) <= scl
    ensures Packed(scl)
  {
    BodyParses(files, addr, scl, |files|);
    assert files[..|files|] == files;
  }

  /** The sectors that catalogue entry i of the disk points to. */
  function ReadBack(trd: seq<byte>, i: nat): Option<seq<byte>>
    requires |trd| == TRD_SIZE && i < MAX_FILES
  {
    var e := trd[i * CATALOG_ENTRY_LEN..i * CATALOG_ENTRY_LEN + CATALOG_ENTRY_LEN];
    var track: int, sector: int, n: int := e[15], e[14], e[13];
    var start := track * SECTORS_PER_TRACK + sector;
    if start + n <= ALL_SECTORS then Some(trd[SECTOR * start..SECTOR * (start + n)]) else None
  }

  lemma CatalogueReads(scl: seq<byte>, trd: seq<byte>, i: nat)
    requires HasCatalogue(scl) && i < CountOf(scl) && FilePlaced(scl, trd, i)
    ensures ReadBack(trd, i) == Some(scl[DataAt(scl, i)..DataAt(scl, i) + SECTOR * SectorsOf(scl, i)])
  {
    hide Before, DataAt;
    var cat := i * CATALOG_ENTRY_LEN;
    var e := trd[cat..cat + CATALOG_ENTRY_LEN];
    assert e[..ENTRY_LEN] == trd[cat..cat + ENTRY_LEN];
    assert e[13] == EntryOf(scl, i)[13];
  }

  /** Packing files and laying the image out on a disk: exactly the file sets that fit get through,
      each file is read back padded to whole sectors, one after the other from track 1 on, and the
      sectors used and free make up the disk. */
  method PackAndReconstruct(files: seq<File>, addr: nat) returns (r: Result<array<byte>, Error>)
    requires Named(files)
    ensures r.Ok? <==> Fits(files)
    ensures r.Ok? ==> r.value.Length == TRD_SIZE && Free(r.value[..]) + Sum(files) == FREE_SECTORS
    ensures r.Ok? ==> forall i :: 0 <= i < |files| ==> ReadBack(r.value[..], i) == Some(Padded(files[i].data))
  {
    hide Sum, Padded, ReadBack, Body, Before, Reconstructed, Packed;
    var scl := CreateScl(files, addr);
    if scl.Err? {
      return Err(scl.error);
    }
    BodyIsPacked(files, addr, scl.value);
    r := ReconstructTrd(scl.value);
    EverythingReads(files, addr, scl.value, r.value[..]);
  }

  lemma EverythingReads(files: seq<File>, addr: nat, scl: seq<byte>, trd: seq<byte>)
    requires Named(files) && Fits(files) && Body(files, addr) <= scl && HasCatalogue(scl) && Reconstructed(scl, trd)
    ensures |trd| == TRD_SIZE && Free(trd) + Sum(files) == FREE_SECTORS
    ensures forall i :: 0 <= i < |files| ==> ReadBack(trd, i) == Some(Padded(files[i].data))
  {
    hide Sum, Padded, ReadBack, Body, Before, FilePlaced, EntryOf, Free, DataAt, SectorsOf, Entries, AllData, Fits, Named;
    BodyParses(files, addr, scl, |files|);
    assert files[..|files|] == files;
    forall i | 0 <= i < |files| ensures ReadBack(trd, i) == Some(Padded(files[i].data)) {
      FileReads(files, addr, scl, trd, i);
    }
  }

  lemma FileReads(files: seq<File>, addr: nat, scl: seq<byte>, trd: seq<byte>, i: nat)
    requires Named(files) && Fits(files) && Body(files, addr) <= scl && HasCatalogue(scl) && Reconstructed(scl, trd)
    requires i < |files| && |trd| == TRD_SIZE
    ensures ReadBack(trd, i) == Some(Padded(files[i].data))
  {
    hide Sum, Padded, ReadBack, Body, Before, FilePlaced, EntryOf, DataAt, SectorsOf, Fits, Named, SystemSector;
    BodyData(files, addr, scl, i);
    CatalogueReads(scl, trd, i);
  }
}
