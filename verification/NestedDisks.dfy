/** Disks on disks that the code opens without an error, and that then do not read as they should. */
module NestedDisks {
  import opened Arithmetic
  import opened ByteStrings
  import opened Wrappers
  import opened ReaderStack
  import opened VmdkHeader

  /** What is wrong with the innermost disk: a table entry, or the directory, lies across a boundary of
      the grains below. */
  datatype Guest = CutEntry | CutDirectory

  /** The innermost disk: 128 grains, of which one is there, in sector 3. With 128 entries to a table
      its directory has one entry, and entry 111 of the table (1468) is of that grain; with one to a
      table the directory has 128, and entry 120 (992) leads to its table, in sector 2. */
  function GuestByte(g: Guest, j: nat): byte {
    if j < 80 then HeaderByte(128, PerTable(g), j)
    else if j == 1536 then 7
    else if g.CutEntry? then if j == 512 then 2 else if j == 1468 then 3 else 0
    else if j == 992 then 2 else if j == 1024 then 3 else 0
  }

  function PerTable(g: Guest): byte {
    if g.CutEntry? then 128 else 1
  }

  /** A disk of five sectors: its header, directory and table, and four of its grains. On it is a
      2IMG image, with data from byte 66 on; and that is the innermost disk. */
  function FileByte(g: Guest, k: nat): byte {
    if k < 80 then HeaderByte(5, 8, k)
    else if k == 512 then 2
    else if k == 1024 then 3 else if k == 1028 then 4 else if k == 1032 then 5 else if k == 1036 then 6
    else if 1536 <= k < 1540 then TWOIMG_MAGIC[k - 1536]
    else if k == 1560 then 66 else if k == 1565 then 8
    else if 1602 <= k then GuestByte(g, k - 1602)
    else 0
  }

  function Image(g: Guest): Reader {
    Bytes(seq(3584, k requires 0 <= k < 3584 => FileByte(g, k)))
  }

  function Inner(g: Guest): Reader {
    Vmdk4(Image(g), [2], 8, false, 512, 2560)
  }

  function Data(g: Guest): Reader {
    Slice(Inner(g), 66, 2048)
  }

  lemma EntryTwo()
    ensures Entries([2, 0, 0, 0]) == [2]
  {
    var s: seq<byte> := [2, 0, 0, 0];
    assert s[0..4] == s;
    assert Entry32(s, 0) == 2;
  }

  lemma OneTable(capacity: byte, perTable: byte)
    requires 0 < capacity <= perTable
    ensures Tables(capacity * 512, perTable, 512) == 1
  {
    var a, coverage := capacity * 512 - 1, perTable * 512;
    MulGrows(capacity, perTable, 512);
    QuotientIs(a, coverage, 0, a);
  }

  lemma ImageOpens(g: Guest)
    ensures Formed(Image(g)) && Open(Image(g)) == Ok(Inner(g))
  {
    hide GuestByte, Tables, Entries;
    var data := Image(g).data;
    var h := data[..HEADER_LEN];
    assert data[0..8] == h[..8] && data[0..80] == h && data[512..516] == [2, 0, 0, 0];
    OneTable(5, 8);
    EntryTwo();
    HeaderOpens(Image(g), 5, 8, h, [2, 0, 0, 0]);
  }

  lemma InnerEntry(g: Guest, t: nat)
    requires t < 5
    ensures U32(Image(g).data[1024 + t * 4..1024 + t * 4 + 4]) == if t < 4 then 3 + t else 0
  {
    hide GuestByte;
  }

  lemma InnerWhere(g: Guest, i: nat)
    requires i < 2560
    ensures Formed(Inner(g)) && EntryAt(Inner(g), i / 512) == Some(1024 + i / 512 * 4)
    ensures Physical(Inner(g), i) == if i < 2048 then Some(1536 + i) else None
  {
    hide FileByte;
    InnerEntry(g, i / 512);
  }

  lemma InnerByte(g: Guest, i: nat)
    requires i < 2560
    ensures Formed(Inner(g)) && EntryAt(Inner(g), i / 512) == Some(1024 + i / 512 * 4)
    ensures Physical(Inner(g), i) == if i < 2048 then Some(1536 + i) else None
    ensures Content(Inner(g))[i] == if i < 2048 then FileByte(g, 1536 + i) else 0
    ensures Piece(Inner(g), i) == 512 - i % 512
    ensures Mapped(Inner(g), i) && MappedInside(Inner(g), i)
  {
    hide FileByte, Physical, EntryAt;
    InnerWhere(g, i);
    assert Content(Inner(g))[i] == ByteAt(Inner(g), i);
  }

  lemma InnerIsSound(g: Guest)
    ensures Formed(Data(g)) && Inside(Data(g)) && Sound(Data(g)) && Sound(Inner(g))
  {
    hide Mapped, MappedInside;
    forall i | 0 <= i < 2560 ensures Mapped(Inner(g), i) && MappedInside(Inner(g), i) { InnerByte(g, i); }
  }

  lemma GuestInFile(g: Guest, j: nat)
    ensures FileByte(g, 1602 + j) == GuestByte(g, j)
  {
    hide GuestByte;
  }

  lemma DataByte(g: Guest, j: nat)
    requires j < 2048
    ensures Formed(Data(g)) && |Content(Data(g))| == 2048
    ensures Content(Data(g))[j] == if j < 1982 then GuestByte(g, j) else 0
    ensures Piece(Data(g), j) == Min(2048 - j, 512 - (j + 66) % 512)
  {
    hide Content, Piece, GuestByte, FileByte;
    InnerByte(g, j + 66);
    GuestInFile(g, j);
    SliceUnfolds(Data(g), j, 1);
  }

  lemma DataRead(g: Guest, j: nat, n: nat)
    requires j < 2048 && n <= Min(2048 - j, 512 - (j + 66) % 512)
    ensures Formed(Data(g)) && |Content(Data(g))| == 2048 && Read(Data(g), j, n) == Ok(Content(Data(g))[j..j + n])
  {
    hide Content, Piece, Read, Sound;
    InnerIsSound(g);
    DataByte(g, j);
    ReadIsRight(Data(g), j, n);
  }

  lemma DataBytes(g: Guest, j: nat, s: seq<byte>)
    requires j + |s| <= 1982 && forall k :: 0 <= k < |s| ==> s[k] == GuestByte(g, j + k)
    ensures Formed(Data(g)) && |Content(Data(g))| == 2048 && Content(Data(g))[j..j + |s|] == s
  {
    hide Content, GuestByte;
    DataByte(g, 0);
    forall k | 0 <= k < |s| ensures Content(Data(g))[j + k] == s[k] { DataByte(g, j + k); }
  }

  lemma TwoImgReads(g: Guest, h: seq<byte>)
    requires |h| == TWOIMG_LEN && forall k :: 0 <= k < TWOIMG_LEN ==> h[k] == FileByte(g, 1536 + k)
    ensures h[..4] == TWOIMG_MAGIC && At32(h, 0x18) == 66 && At32(h, 0x1C) == 2048
  {
    hide GuestByte;
  }

  lemma InnerOpens(g: Guest)
    ensures Formed(Inner(g)) && OpenTwoImg(Inner(g)) == Ok(Data(g))
  {
    hide Content, Read, Piece, Sound, FileByte, At32;
    InnerIsSound(g);
    InnerByte(g, 0);
    ReadIsRight(Inner(g), 0, TWOIMG_LEN);
    var h := Content(Inner(g))[0..TWOIMG_LEN];
    forall k | 0 <= k < TWOIMG_LEN ensures h[k] == FileByte(g, 1536 + k) { InnerByte(g, k); }
    TwoImgReads(g, h);
  }

  lemma GuestHeader(g: Guest) returns (h: seq<byte>)
    ensures |h| == HEADER_LEN && IsHeader(h, 128, PerTable(g)) && Formed(Data(g))
    ensures Read(Data(g), 0, 8) == Ok(h[..8]) && Read(Data(g), 0, HEADER_LEN) == Ok(h)
  {
    hide Content, Read;
    h := seq(HEADER_LEN, k requires 0 <= k < HEADER_LEN => HeaderByte(128, PerTable(g), k));
    DataBytes(g, 0, h);
    DataRead(g, 0, 8);
    DataRead(g, 0, HEADER_LEN);
    SliceOfSlice(Content(Data(g)), 0, HEADER_LEN, 0, 8);
  }

  // ---- A disk that has all its data, but cannot be read ----

  function Misaligned(): Reader {
    Vmdk4(Data(CutEntry), [2], 128, false, 512, 65536)
  }

  lemma MisalignedOpens()
    ensures Formed(Data(CutEntry)) && Open(Data(CutEntry)) == Ok(Misaligned())
  {
    hide Content, Read, Open, Tables, Entries, IsHeader;
    var h := GuestHeader(CutEntry);
    DataBytes(CutEntry, 512, [2, 0, 0, 0]);
    DataRead(CutEntry, 512, 4);
    OneTable(128, 128);
    EntryTwo();
    HeaderOpens(Data(CutEntry), 128, 128, h, [2, 0, 0, 0]);
  }

  lemma MisalignedEntry(t: nat)
    requires t < 128 && Formed(Data(CutEntry)) && |Content(Data(CutEntry))| == 2048
    ensures U32(Content(Data(CutEntry))[1024 + t * 4..1024 + t * 4 + 4]) == if t == 111 then 3 else 0
  {
    hide Content;
    var s: seq<byte> := if t == 111 then [3, 0, 0, 0] else [0, 0, 0, 0];
    DataBytes(CutEntry, 1024 + t * 4, s);
  }

  lemma MisalignedByte(i: nat)
    requires i < 65536 && Formed(Misaligned()) && |Content(Data(CutEntry))| == 2048
    ensures EntryAt(Misaligned(), i / 512) == Some(1024 + i / 512 * 4) && MappedInside(Misaligned(), i)
    ensures Physical(Misaligned(), i) == if i / 512 == 111 then Some(1536 + i % 512) else None
  {
    hide Content, U32;
    MisalignedEntry(i / 512);
  }

  /** All is opened: the disk, the image on it, and the disk in that. The tables and grains of the
      last are inside, and its grain 111 is there, but no byte of that grain can be read. */
  lemma MisalignedFails(at: nat, n: nat)
    requires 111 * 512 <= at < 112 * 512
    ensures Formed(Misaligned()) && Open(Image(CutEntry)) == Ok(Inner(CutEntry)) && OpenTwoImg(Inner(CutEntry)) == Ok(Data(CutEntry))
    ensures Open(Data(CutEntry)) == Ok(Misaligned()) && Inside(Misaligned()) && Sound(Data(CutEntry))
    ensures Content(Misaligned())[111 * 512] == 7 && Read(Misaligned(), at, n) == Err(ShortTable)
  {
    hide Content, Read, Piece, Open, OpenTwoImg, MappedInside, Sound, Inside, EntryAt, Physical, FileByte, GuestByte;
    ImageOpens(CutEntry);
    InnerOpens(CutEntry);
    MisalignedOpens();
    InnerIsSound(CutEntry);
    DataByte(CutEntry, 0);
    AllInside();
    MisalignedByte(at);
    DataByte(CutEntry, 1468);
    CutEntryFails(Misaligned(), at, n);
    SevenIsThere();
  }

  lemma AllInside()
    requires Formed(Misaligned()) && |Content(Data(CutEntry))| == 2048
    ensures Inside(Misaligned())
  {
    hide Content, MappedInside;
    InnerIsSound(CutEntry);
    forall i | 0 <= i < 65536 ensures MappedInside(Misaligned(), i) { MisalignedByte(i); }
  }

  lemma SevenIsThere()
    requires Formed(Misaligned()) && |Content(Data(CutEntry))| == 2048
    ensures Content(Misaligned())[111 * 512] == 7
  {
    hide Physical, EntryAt;
    MisalignedByte(111 * 512);
    DataByte(CutEntry, 1536);
    ByteOfContent(Misaligned(), 111 * 512);
  }

  // ---- A disk of which the end of the directory is dropped ----

  /** The disk as opened: of the 128 entries the first 111 are left, none of them in use. */
  function Cut(): Reader {
    Vmdk4(Data(CutDirectory), seq(111, _ => 0), 1, false, 512, 65536)
  }

  lemma DirectoryEntry(t: nat)
    requires t < 128 && Formed(Data(CutDirectory)) && |Content(Data(CutDirectory))| == 2048
    ensures var directory := Content(Data(CutDirectory))[512..1024]; Entry32(directory, t) == if t == 120 then 2 else 0
  {
    hide Content;
    var s: seq<byte> := if t == 120 then [2, 0, 0, 0] else [0, 0, 0, 0];
    DataBytes(CutDirectory, 512 + 4 * t, s);
    SliceOfSlice(Content(Data(CutDirectory)), 512, 1024, 4 * t, 4);
  }

  lemma DirectoryEntries()
    requires Formed(Data(CutDirectory)) && |Content(Data(CutDirectory))| == 2048
    ensures Entries(Content(Data(CutDirectory))[512..1024]) == seq(128, t => if t == 120 then 2 else 0)
  {
    hide Content, Entry32;
    forall t | 0 <= t < 128 ensures Entries(Content(Data(CutDirectory))[512..1024])[t] == if t == 120 then 2 else 0 { DirectoryEntry(t); }
  }

  lemma CutEntries()
    requires Formed(Data(CutDirectory)) && |Content(Data(CutDirectory))| == 2048
    ensures Entries(Content(Data(CutDirectory))[512..958]) == seq(111, _ => 0)
  {
    hide Content, Entries;
    DirectoryEntries();
    SliceOfSlice(Content(Data(CutDirectory)), 512, 1024, 0, 446);
    EntriesFirst(Content(Data(CutDirectory))[512..1024], 446);
  }

  lemma ManyTables()
    ensures Tables(65536, 1, 512) == 128
  {
  }

  lemma CutRead()
    ensures Formed(Data(CutDirectory)) && |Content(Data(CutDirectory))| == 2048
    ensures Read(Data(CutDirectory), 512, 512) == Ok(Content(Data(CutDirectory))[512..958]) && Piece(Data(CutDirectory), 512) == 446
  {
    hide Content, Piece, Read, Sound;
    InnerIsSound(CutDirectory);
    DataByte(CutDirectory, 512);
    ReadIsRight(Data(CutDirectory), 512, 512);
  }

  lemma CutOpens()
    ensures Formed(Data(CutDirectory)) && Open(Data(CutDirectory)) == Ok(Cut())
  {
    hide Content, Read, Open, Tables, Entries, IsHeader, Piece;
    var h := GuestHeader(CutDirectory);
    CutRead();
    CutEntries();
    ManyTables();
    HeaderOpens(Data(CutDirectory), 128, 1, h, Content(Data(CutDirectory))[512..958]);
  }

  /** The same disk with its whole directory. */
  function Whole(): Reader {
    Vmdk4(Data(CutDirectory), seq(128, t => if t == 120 then 2 else 0), 1, false, 512, 65536)
  }

  lemma WholeByte(i: nat)
    requires i < 65536 && Formed(Whole()) && |Content(Data(CutDirectory))| == 2048
    ensures Physical(Whole(), i) == if i / 512 == 120 then Some(1536 + i % 512) else None
    ensures MappedInside(Whole(), i)
  {
    hide Content, U32;
    if i / 512 == 120 { TableEntry(); }
  }

  lemma TableEntry()
    requires Formed(Data(CutDirectory)) && |Content(Data(CutDirectory))| == 2048
    ensures U32(Content(Data(CutDirectory))[1024..1028]) == 3
  {
    hide Content;
    DataBytes(CutDirectory, 1024, [3, 0, 0, 0]);
  }

  lemma WholeIsWritten()
    ensures Formed(Data(CutDirectory)) && Open(Data(CutDirectory)).Ok? && DirectoryInside(Data(CutDirectory))
    ensures AsWritten(Data(CutDirectory)) == Whole() && Kept(Data(CutDirectory)) == 111
  {
    hide Content, Read, Open, Tables, Entries, IsHeader, Piece, Geometry, At32;
    var h := GuestHeader(CutDirectory);
    CutOpens();
    CutRead();
    HeaderReads(h, 128, 1);
    HeaderGeometry(h, 128, 1);
    ManyTables();
    DirectoryEntries();
    assert HeaderOf(Data(CutDirectory)) == h;
  }

  /** All is opened, nothing fails, and every read is right for the directory that is left: but the 7
      in the file that the whole directory leads to reads as 0. */
  lemma DirectoryIsCut(at: nat)
    requires 120 * 512 <= at < 121 * 512
    ensures Formed(Cut()) && Formed(Whole()) && Open(Image(CutDirectory)) == Ok(Inner(CutDirectory))
    ensures OpenTwoImg(Inner(CutDirectory)) == Ok(Data(CutDirectory)) && Open(Data(CutDirectory)) == Ok(Cut())
    ensures DirectoryInside(Data(CutDirectory)) && AsWritten(Data(CutDirectory)) == Whole() && Inside(Whole())
    ensures Sound(Cut()) && Readable(Cut())
    ensures Content(Whole())[120 * 512] == 7 && Read(Cut(), at, 1) == Ok([0])
  {
    hide Content, Read, Piece, Open, OpenTwoImg, MappedInside, Sound, Inside, EntryAt, Physical, FileByte, GuestByte, DirectoryInside, AsWritten, Kept;
    ImageOpens(CutDirectory);
    InnerOpens(CutDirectory);
    CutOpens();
    WholeIsWritten();
    DataByte(CutDirectory, 0);
    WholeIsInside();
    CutIsSound();
    CutReadsZero(at);
    SevenIsWritten();
  }

  lemma WholeIsInside()
    requires Formed(Whole()) && |Content(Data(CutDirectory))| == 2048
    ensures Inside(Whole())
  {
    hide Content, MappedInside;
    InnerIsSound(CutDirectory);
    forall i | 0 <= i < 65536 ensures MappedInside(Whole(), i) { WholeByte(i); }
  }

  lemma CutIsSound()
    ensures Formed(Cut()) && Inside(Cut()) && Sound(Cut()) && Readable(Cut())
  {
    hide Content, Readable, Piece;
    InnerIsSound(CutDirectory);
    forall i | 0 <= i < 65536 ensures Mapped(Cut(), i) && MappedInside(Cut(), i) { NothingMapped(i); }
    ReadableIffSound(Cut());
  }

  lemma NothingMapped(i: nat)
    requires i < 65536
    ensures Formed(Cut()) && EntryAt(Cut(), i / 512) == None && Physical(Cut(), i) == None
    ensures Mapped(Cut(), i) && MappedInside(Cut(), i)
  {
    hide Content, U32;
  }

  lemma CutReadsZero(at: nat)
    requires at < 65536
    ensures Formed(Cut()) && Read(Cut(), at, 1) == Ok([0])
  {
    hide EntryAt;
    NothingMapped(at);
    assert Zeros(1) == [0];
  }

  lemma SevenIsWritten()
    requires Formed(Whole()) && |Content(Data(CutDirectory))| == 2048
    ensures Content(Whole())[120 * 512] == 7
  {
    hide Physical, EntryAt;
    WholeByte(120 * 512);
    DataByte(CutDirectory, 1536);
    ByteOfContent(Whole(), 120 * 512);
  }
}
