/** Opening a VMDK4 disk, and a 2IMG image, by its header; disks that can be opened but not read. */
module VmdkHeader {
  import opened Arithmetic
  import opened ByteStrings
  import opened Wrappers
  import opened ReaderStack

  const MAGIC := 0x564D444B
  const HEADER_LEN := 80
  const FLAG_COMPRESS := 0x10000
  const FLAG_ZERO_GRAIN := 4
  const MAX_TABLE_SIZE := 64 * 1024 * 1024

  /** Why a disk is not opened; NotVmdk4 and Compressed are variants not modelled here, or no disk. */
  datatype Fault = Failed(error: Error) | ShortMagic | NotVmdk4 | ShortHeader | BadGeometry | Overflow | TableTooLarge | TableOutside | Compressed | NotTwoImg

  // ---- The header ----

  function At32(h: seq<byte>, k: nat): nat
    requires k + 4 <= |h|
  {
    U32(h[k..k + 4])
  }

  function At64(h: seq<byte>, k: nat): nat
    requires k + 8 <= |h|
  {
    At32(h, k) + 0x1_0000_0000 * At32(h, k + 4)
  }

  function Flag(flags: nat, bit: nat): bool
    requires bit > 0
  {
    flags / bit % 2 == 1
  }

  /** What a reader gives as its size. */
  function Size(r: Reader): nat {
    match r
    case Bytes(data) => |data|
    case Slice(_, _, length) => length
    case Vmdk4(_, _, _, _, _, size) => size
  }

  function Entries(s: seq<byte>): (es: seq<u32>)
    ensures |es| == |s| / 4
  {
    seq(|s| / 4, i requires 0 <= i < |s| / 4 => Entry32(s, i))
  }

  function Entry32(s: seq<byte>, i: nat): (e: u32)
    requires 4 * i + 4 <= |s|
  {
    U32Bound(s[4 * i..4 * i + 4]);
    At32(s, 4 * i)
  }

  lemma U32Bound(s: seq<byte>)
    requires |s| == 4
    ensures U32(s) < 0x1_0000_0000
  {
  }

  /** The directory entries that a disk needs. */
  function Tables(size: nat, perTable: nat, grainSize: nat): nat
    requires perTable > 0 && grainSize > 0
  {
    MulGrows(1, perTable, grainSize);
    var coverage := perTable * grainSize;
    if size == 0 then 0 else (size - 1) / coverage + 1
  }

  /** How many directory entries the header calls for, and where they are. */
  function Geometry(h: seq<byte>): (r: Result<(nat, nat), Fault>)
    requires |h| == HEADER_LEN
  {
    var grainSize, size, perTable := At64(h, 20) * 512, At64(h, 12) * 512, At32(h, 44);
    if grainSize == 0 || grainSize >= U64 then Err(BadGeometry)
    else if size >= U64 then Err(Overflow)
    else if perTable == 0 then Err(BadGeometry)
    else if perTable * grainSize >= U64 || At64(h, 56) * 512 >= U64 then Err(Overflow)
    else Ok((Tables(size, perTable, grainSize), At64(h, 56) * 512))
  }

  /** What opening makes of a header and of the directory read. */
  function DiskOf(parent: Reader, h: seq<byte>, directory: seq<byte>): Reader
    requires |h| == HEADER_LEN
  {
    Vmdk4(parent, Entries(directory), At32(h, 44), Flag(At32(h, 8), FLAG_ZERO_GRAIN), At64(h, 20) * 512, At64(h, 12) * 512)
  }

  function TableSize(parent: Reader, at: nat, entries: nat): Result<nat, Fault> {
    if entries * 4 > MAX_TABLE_SIZE then Err(TableTooLarge)
    else if at + entries * 4 >= U64 then Err(Overflow)
    else if at + entries * 4 > Size(parent) then Err(TableOutside)
    else Ok(entries * 4)
  }

  /** Look at the magic number, read the header, check it, and read the directory in one read. */
  function Open(parent: Reader): Result<Reader, Fault>
    requires Formed(parent)
  {
    var magic := Read(parent, 0, 8);
    if magic.Err? then Err(Failed(magic.error))
    else if |magic.value| < 4 then Err(ShortMagic)
    else if At32(magic.value, 0) != MAGIC then Err(NotVmdk4)
    else
      var header := Read(parent, 0, HEADER_LEN);
      if header.Err? then Err(Failed(header.error))
      else if |header.value| != HEADER_LEN then Err(ShortHeader)
      else OpenHeader(parent, header.value)
  }

  function OpenHeader(parent: Reader, h: seq<byte>): Result<Reader, Fault>
    requires Formed(parent) && |h| == HEADER_LEN
  {
    var geometry := Geometry(h);
    if geometry.Err? then Err(geometry.error)
    else
      var bytes := TableSize(parent, geometry.value.1, geometry.value.0);
      if bytes.Err? then Err(bytes.error)
      else
        var directory := Read(parent, geometry.value.1, bytes.value);
        if directory.Err? then Err(Failed(directory.error))
        else if Flag(At32(h, 8), FLAG_COMPRESS) then Err(Compressed)
        else Ok(DiskOf(parent, h, directory.value))
  }

  // ---- 2IMG ----

  const TWOIMG_MAGIC: seq<byte> := [0x32, 0x49, 0x4D, 0x47]
  const TWOIMG_LEN := 32

  /** A 2IMG header wraps a slice of its image, that starts and ends anywhere. */
  function OpenTwoImg(parent: Reader): Result<Reader, Fault>
    requires Formed(parent)
  {
    var header := Read(parent, 0, TWOIMG_LEN);
    if header.Err? then Err(Failed(header.error))
    else if |header.value| != TWOIMG_LEN then Err(ShortHeader)
    else if header.value[..4] != TWOIMG_MAGIC then Err(NotTwoImg)
    else
      var offset, length := At32(header.value, 0x18), At32(header.value, 0x1C);
      if length == 0 then Err(BadGeometry)
      else if offset >= Size(parent) || offset + length > Size(parent) then Err(TableOutside)
      else Ok(Slice(parent, offset, length))
  }

  // ---- What is opened ----

  /** Where the directory is, as the header says. */
  function DirectoryAt(parent: Reader): nat
    requires Formed(parent)
  {
    var header := Read(parent, 0, HEADER_LEN);
    if header.Ok? && |header.value| == HEADER_LEN then At64(header.value, 56) * 512 else 0
  }

  lemma GeometryAt(h: seq<byte>)
    requires |h| == HEADER_LEN && Geometry(h).Ok?
    ensures Geometry(h).value == (Tables(At64(h, 12) * 512, At32(h, 44), At64(h, 20) * 512), At64(h, 56) * 512)
    ensures At32(h, 44) > 0 && 0 < At64(h, 20) * 512 < U64 && At64(h, 12) * 512 < U64
  {
    hide At32, At64, Tables;
  }

  function HeaderOf(parent: Reader): (h: seq<byte>)
    requires Formed(parent) && Open(parent).Ok?
    ensures |h| == HEADER_LEN && Geometry(h).Ok?
  {
    Read(parent, 0, HEADER_LEN).value
  }

  lemma Opened(parent: Reader) returns (h: seq<byte>, directory: seq<byte>)
    requires Formed(parent) && Open(parent).Ok?
    ensures h == HeaderOf(parent) && Geometry(h).value.1 == DirectoryAt(parent)
    ensures Read(parent, DirectoryAt(parent), 4 * Geometry(h).value.0) == Ok(directory)
    ensures Open(parent).value == DiskOf(parent, h, directory)
  {
    hide Read, Geometry, DiskOf, At32, At64, Flag;
    h := Read(parent, 0, HEADER_LEN).value;
    GeometryAt(h);
    directory := Read(parent, Geometry(h).value.1, 4 * Geometry(h).value.0).value;
  }

  /** Whatever is opened is well formed, and in whole sectors. */
  lemma OpenedIsFormed(parent: Reader)
    requires Formed(parent) && Open(parent).Ok?
    ensures var r := Open(parent).value;
      Formed(r) && r.Vmdk4? && r.parent == parent && (Aligned(parent) ==> Aligned(r))
  {
    hide Open, Read, At32, At64, Flag, Geometry, Entries;
    var h, directory := Opened(parent);
    GeometryAt(h);
    WholeSectors(At64(h, 20));
    WholeSectors(At64(h, 12));
  }

  lemma WholeSectors(n: nat)
    ensures n * 512 % SECTOR == 0
  {
  }

  // ---- The disk as the file says, and the disk opened ----

  /** How many directory entries the disk needs. */
  function Needed(parent: Reader): nat
    requires Formed(parent) && Open(parent).Ok?
  {
    Geometry(HeaderOf(parent)).value.0
  }

  ghost predicate DirectoryInside(parent: Reader)
    requires Formed(parent) && Open(parent).Ok?
  {
    DirectoryAt(parent) + 4 * Needed(parent) <= |Content(parent)|
  }

  /** The disk with its whole directory, as it lies in the parent. */
  ghost function AsWritten(parent: Reader): Reader
    requires Formed(parent) && Open(parent).Ok? && DirectoryInside(parent)
  {
    DiskOf(parent, HeaderOf(parent), Content(parent)[DirectoryAt(parent)..DirectoryAt(parent) + 4 * Needed(parent)])
  }

  /** How many of its entries one read of the parent returns. */
  ghost function Kept(parent: Reader): nat
    requires Formed(parent) && Open(parent).Ok?
  {
    Min(4 * Needed(parent), Piece(parent, DirectoryAt(parent))) / 4
  }

  lemma EntriesFirst(s: seq<byte>, m: nat)
    requires m <= |s|
    ensures Entries(s[..m]) == Entries(s)[..m / 4]
  {
    hide U32;
    forall i | 0 <= i < m / 4 ensures Entries(s[..m])[i] == Entries(s)[i] {
      assert s[..m][4 * i..4 * i + 4] == s[4 * i..4 * i + 4];
    }
  }

  lemma PrefixOfSlice(c: seq<byte>, at: nat, n: nat, v: seq<byte>)
    requires at + n <= |c| && |v| <= n && Agrees(c, at, v)
    ensures v == c[at..at + n][..|v|]
  {
  }

  lemma WrittenIsFormed(parent: Reader)
    requires Formed(parent) && Open(parent).Ok? && DirectoryInside(parent)
    ensures var w := AsWritten(parent);
      Formed(w) && w.Vmdk4? && w.parent == parent && |w.gd| == Needed(parent) && Kept(parent) <= Needed(parent)
  {
    hide Open, Read, At32, At64, Flag, Geometry, Entry32, Content, Piece, DirectoryAt;
    GeometryAt(HeaderOf(parent));
  }

  /** What is opened is the disk with the directory entries that one read returned. */
  lemma OpenedIsFirst(parent: Reader)
    requires Formed(parent) && Open(parent).Ok? && Sound(parent) && DirectoryInside(parent)
    ensures Formed(AsWritten(parent)) && AsWritten(parent).Vmdk4? && |AsWritten(parent).gd| == Needed(parent) && Kept(parent) <= Needed(parent)
    ensures Open(parent).value == WithFirst(AsWritten(parent), Kept(parent))
  {
    hide Open, Read, At32, At64, Flag, Geometry, Entries, Content, Piece, DirectoryAt, Sound;
    WrittenIsFormed(parent);
    var h, directory := Opened(parent);
    var at, n := DirectoryAt(parent), Needed(parent);
    ReadIsRight(parent, at, 4 * n);
    var whole := Content(parent)[at..at + 4 * n];
    PrefixOfSlice(Content(parent), at, 4 * n, directory);
    EntriesFirst(whole, |directory|);
  }

  /** Over a readable parent, a disk opened has its whole directory exactly if one read of the parent
      can return it; no error tells when it has not. */
  lemma OpenedIsWhole(parent: Reader)
    requires Formed(parent) && Open(parent).Ok? && Sound(parent) && DirectoryInside(parent)
    ensures Open(parent).value == AsWritten(parent) <==> 4 * Needed(parent) <= Piece(parent, DirectoryAt(parent))
  {
    hide Open, Content, Piece, DirectoryAt, Sound, AsWritten, Needed;
    OpenedIsFirst(parent);
    var w, k := AsWritten(parent), Kept(parent);
    if k == |w.gd| { assert w.gd[..k] == w.gd; } else { assert |WithFirst(w, k).gd| == k; }
  }

  /** It still holds what the whole disk does exactly if there are only zeros under the tables lost. */
  lemma OpenedHolds(parent: Reader)
    requires Formed(parent) && Open(parent).Ok? && Sound(parent) && DirectoryInside(parent)
    ensures Formed(AsWritten(parent)) && AsWritten(parent).Vmdk4? && Formed(Open(parent).value)
    ensures Content(Open(parent).value) == Content(AsWritten(parent)) <==> ZerosFrom(AsWritten(parent), Kept(parent))
  {
    hide Open, Content, Piece, DirectoryAt, Sound, AsWritten, Needed, ZerosFrom;
    OpenedIsFirst(parent);
    SameIfZeros(AsWritten(parent), Kept(parent));
  }

  /** And reading it gives that, byte for byte, exactly if besides no table entry left is cut. */
  lemma OpenedReadsRight(parent: Reader)
    requires Formed(parent) && Open(parent).Ok? && Sound(parent) && DirectoryInside(parent)
    requires Formed(AsWritten(parent)) && Inside(AsWritten(parent))
    ensures AsWritten(parent).Vmdk4? && Formed(Open(parent).value)
    ensures ReadsAs(Open(parent).value, Content(AsWritten(parent))) <==>
      EntriesWhole(AsWritten(parent), Kept(parent)) && ZerosFrom(AsWritten(parent), Kept(parent))
  {
    hide Open, Content, Piece, DirectoryAt, Sound, Needed, ZerosFrom, EntriesWhole, ReadsAs, MappedInside;
    OpenedIsFirst(parent);
    FirstReadsAs(AsWritten(parent), Kept(parent));
  }

  // ---- Headers with grains of one sector, and the directory in sector 1 ----

  function HeaderByte(capacity: byte, perTable: byte, k: nat): byte {
    if k == 0 then 0x4B else if k == 1 then 0x44 else if k == 2 then 0x4D else if k == 3 then 0x56
    else if k == 12 then capacity else if k == 20 then 1 else if k == 44 then perTable else if k == 56 then 1
    else 0
  }

  ghost predicate IsHeader(h: seq<byte>, capacity: byte, perTable: byte) {
    |h| == HEADER_LEN && forall k :: 0 <= k < HEADER_LEN ==> h[k] == HeaderByte(capacity, perTable, k)
  }

  lemma HeaderReads(h: seq<byte>, capacity: byte, perTable: byte)
    requires IsHeader(h, capacity, perTable)
    ensures At32(h, 0) == MAGIC && At32(h, 8) == 0 && At32(h, 12) == capacity && At32(h, 16) == 0
    ensures At32(h, 20) == 1 && At32(h, 24) == 0 && At32(h, 44) == perTable && At32(h, 56) == 1 && At32(h, 60) == 0
  {
  }

  lemma HeaderGeometry(h: seq<byte>, capacity: byte, perTable: byte)
    requires IsHeader(h, capacity, perTable) && perTable > 0
    ensures Geometry(h) == Ok((Tables(capacity * 512, perTable, 512), 512)) && At64(h, 12) == capacity && At64(h, 20) == 1
  {
    hide At32, IsHeader, Tables;
    HeaderReads(h, capacity, perTable);
  }

  lemma FewTables(capacity: byte, perTable: byte)
    requires perTable > 0
    ensures Tables(capacity * 512, perTable, 512) <= 256
  {
    if capacity > 0 {
      var a, coverage := capacity * 512 - 1, perTable * 512;
      MulGrows(1, perTable, 512);
      assert a == a / coverage * coverage + a % coverage;
      if a / coverage >= 256 { MulGrows(256, a / coverage, coverage); }
    }
  }

  /** With such a header, and a directory of so many entries as it calls for, this disk is opened; the
      directory may be cut. */
  lemma HeaderOpens(parent: Reader, capacity: byte, perTable: byte, h: seq<byte>, directory: seq<byte>)
    requires Formed(parent) && |h| == HEADER_LEN && IsHeader(h, capacity, perTable) && perTable > 0
    requires Read(parent, 0, 8) == Ok(h[..8]) && Read(parent, 0, HEADER_LEN) == Ok(h)
    requires Read(parent, 512, 4 * Tables(capacity * 512, perTable, 512)) == Ok(directory)
    requires 512 + 4 * Tables(capacity * 512, perTable, 512) <= Size(parent)
    ensures Open(parent) == Ok(Vmdk4(parent, Entries(directory), perTable, false, 512, capacity * 512))
  {
    hide Read, IsHeader, Geometry, At32, At64, Entries, Size, Tables;
    HeaderReads(h, capacity, perTable);
    HeaderGeometry(h, capacity, perTable);
    FewTables(capacity, perTable);
    MagicFirst(h);
    assert Open(parent) == OpenHeader(parent, h);
  }

  lemma MagicFirst(h: seq<byte>)
    requires |h| == HEADER_LEN
    ensures At32(h[..8], 0) == At32(h, 0)
  {
    assert h[..8][0..4] == h[0..4];
  }
}
