/** Readers on top of readers: bytes in memory, slices, and uncompressed VMDK4 disks. A read may
    return fewer bytes than were asked for. */
module ReaderStack {
  import opened Arithmetic
  import opened ByteStrings
  import opened Wrappers

  const SECTOR := 512
  const GTE_ZEROED := 1
  const U64 := 0x1_0000_0000_0000_0000
  const MAX_SIZE := 1024 * 1024 * 1024
  const READ_CHUNK := 65536

  datatype Reader =
    | Bytes(data: seq<byte>)
    | Slice(parent: Reader, offset: nat, length: nat)
    | Vmdk4(parent: Reader, gd: seq<u32>, perTable: nat, zeroGrain: bool, grainSize: nat, size: nat)

  datatype Error = ShortTable | TooLarge

  // ---- One read ----

  /** The offset of the table entry of a grain; None if there is no table. */
  function EntryAt(r: Reader, grain: nat): Option<nat>
    requires r.Vmdk4? && r.perTable > 0
  {
    var table := grain / r.perTable;
    if table >= |r.gd| || r.gd[table] == 0 then None else Some(r.gd[table] * SECTOR + grain % r.perTable * 4)
  }

  /** What a read asks for is what is left of the grain, or of the disk, at most. */
  function Wanted(r: Reader, offset: nat, n: nat): nat
    requires r.Vmdk4? && r.grainSize > 0 && offset < r.size
  {
    Min(Min(n, r.grainSize - offset % r.grainSize), r.size - offset)
  }

  predicate Formed(r: Reader) {
    match r
    case Bytes(data) => |data| < U64
    case Slice(parent, offset, length) => offset + length < U64 && Formed(parent)
    case Vmdk4(parent, _, perTable, _, grainSize, size) => perTable > 0 && grainSize > 0 && size < U64 && Formed(parent)
  }

  predicate IsHole(r: Reader, entry: nat)
    requires r.Vmdk4?
  {
    entry == 0 || (r.zeroGrain && entry == GTE_ZEROED)
  }

  /** What read_at returns for a buffer of n bytes. */
  function Read(r: Reader, at: nat, n: nat): Result<seq<byte>, Error>
    requires Formed(r)
    decreases r
  {
    match r
    case Bytes(data) =>
      if at >= |data| then Ok([]) else Ok(data[at..at + Min(n, |data| - at)])
    case Slice(parent, offset, length) =>
      if at >= length then Ok([]) else Read(parent, offset + at, Min(n, length - at))
    case Vmdk4(parent, _, _, _, grainSize, size) =>
      if at >= size then Ok([]) else
        var want := Wanted(r, at, n);
        var entryAt := EntryAt(r, at / grainSize);
        if entryAt.None? then Ok(Zeros(want)) else
          var entry := Read(parent, entryAt.value, 4);
          if entry.Err? then entry
          else if |entry.value| != 4 then Err(ShortTable)
          else if IsHole(r, U32(entry.value)) then Ok(Zeros(want))
          else Read(parent, U32(entry.value) * SECTOR + at % grainSize, want)
  }

  // ---- The flat sequence that a reader stands for ----

  ghost function Content(r: Reader): (c: seq<byte>)
    requires Formed(r)
    ensures r.Vmdk4? ==> |c| == r.size
    decreases r, 0
  {
    match r
    case Bytes(data) => data
    case Slice(parent, offset, length) =>
      var p := Content(parent);
      p[Min(offset, |p|)..Min(offset + length, |p|)]
    case Vmdk4(_, _, _, _, _, size) => seq(size, i requires 0 <= i < size => ByteAt(r, i))
  }

  /** Where byte i of the disk is in the parent, as its tables say; None in a hole. */
  ghost function Physical(r: Reader, i: nat): Option<nat>
    requires Formed(r) && r.Vmdk4?
    decreases r.parent, 1
  {
    var p := Content(r.parent);
    var entryAt := EntryAt(r, i / r.grainSize);
    if entryAt.None? || entryAt.value + 4 > |p| then None else
      var entry := U32(p[entryAt.value..entryAt.value + 4]);
      if IsHole(r, entry) then None else Some(entry * SECTOR + i % r.grainSize)
  }

  ghost function ByteAt(r: Reader, i: nat): byte
    requires Formed(r) && r.Vmdk4?
    decreases r.parent, 2
  {
    var at := Physical(r, i);
    if at.None? || at.value >= |Content(r.parent)| then 0 else Content(r.parent)[at.value]
  }

  /** The most that one read at this offset can return. */
  ghost function Piece(r: Reader, at: nat): nat
    requires Formed(r)
    decreases r
  {
    match r
    case Bytes(data) => if at >= |data| then 0 else |data| - at
    case Slice(parent, offset, length) => if at >= length then 0 else Min(length - at, Piece(parent, offset + at))
    case Vmdk4(parent, _, _, _, grainSize, size) =>
      if at >= size then 0 else
        var left := Min(grainSize - at % grainSize, size - at);
        var physical := Physical(r, at);
        if physical.None? then left else Min(left, Piece(parent, physical.value))
  }

  // ---- When a stack is readable ----

  /** The table entry for offset i can be read whole, and the byte it leads to is there. */
  ghost predicate Mapped(r: Reader, i: nat)
    requires Formed(r) && r.Vmdk4? && i < r.size
  {
    var entryAt := EntryAt(r, i / r.grainSize);
    && (entryAt.Some? ==> entryAt.value + 4 <= |Content(r.parent)| && Piece(r.parent, entryAt.value) >= 4)
    && (Physical(r, i).Some? ==> Physical(r, i).value < |Content(r.parent)|)
  }

  ghost predicate Sound(r: Reader)
    requires Formed(r)
  {
    match r
    case Bytes(_) => true
    case Slice(parent, _, _) => Sound(parent)
    case Vmdk4(parent, _, _, _, _, size) => Sound(parent) && forall i :: 0 <= i < size ==> Mapped(r, i)
  }

  /** v is what content c has at this place. */
  ghost predicate Agrees(c: seq<byte>, at: nat, v: seq<byte>) {
    v == [] || (at + |v| <= |c| && c[at..at + |v|] == v)
  }

  lemma SameGrain(at: nat, j: nat, g: nat)
    requires g > 0 && at % g + j < g
    ensures (at + j) / g == at / g && (at + j) % g == at % g + j
  {
    QuotientIs(at + j, g, at / g, at % g + j);
  }

  /** A read of n bytes is right: it returns as much as one read can, and what the flat sequence has
      there; it returns nothing only at the end. */
  ghost predicate RightRead(r: Reader, at: nat, n: nat)
    requires Formed(r)
  {
    && Read(r, at, n).Ok? && |Read(r, at, n).value| == Min(n, Piece(r, at))
    && Agrees(Content(r), at, Read(r, at, n).value)
    && (Piece(r, at) > 0 <==> at < |Content(r)|)
  }

  /** Every read of a readable stack is right. */
  lemma {:induction false} ReadIsRight(r: Reader, at: nat, n: nat)
    requires Formed(r) && Sound(r)
    ensures RightRead(r, at, n)
    decreases r
  {
    hide RightRead;
    match r
    case Bytes(data) => BytesRead(r, at, n);
    case Slice(parent, offset, length) =>
      if at < length { ReadIsRight(parent, offset + at, Min(n, length - at)); }
      SliceRead(r, at, n);
    case Vmdk4(parent, _, _, _, grainSize, size) =>
      if at < size {
        assert Mapped(r, at);
        if EntryAt(r, at / grainSize).Some? { ReadIsRight(parent, EntryAt(r, at / grainSize).value, 4); }
        if Physical(r, at).Some? { ReadIsRight(parent, Physical(r, at).value, Wanted(r, at, n)); }
        TableRead(r, at, n);
        DiskRead(r, at, n);
      } else {
        PastTheEnd(r, at, n);
      }
  }

  lemma BytesRead(r: Reader, at: nat, n: nat)
    requires Formed(r) && r.Bytes?
    ensures RightRead(r, at, n)
  {
  }

  lemma PastTheEnd(r: Reader, at: nat, n: nat)
    requires Formed(r) && r.Vmdk4? && at >= r.size
    ensures RightRead(r, at, n)
  {
  }

  lemma SliceRead(r: Reader, at: nat, n: nat)
    requires Formed(r) && r.Slice? && (at < r.length ==> RightRead(r.parent, r.offset + at, Min(n, r.length - at)))
    ensures RightRead(r, at, n)
  {
    hide Read, Piece, Content;
    SliceUnfolds(r, at, n);
    var p, c := Content(r.parent), Content(r);
    if at < r.length {
      var v := Read(r.parent, r.offset + at, Min(n, r.length - at)).value;
      if v != [] {
        SliceOfSlice(p, Min(r.offset, |p|), Min(r.offset + r.length, |p|), at, |v|);
      }
    }
  }

  lemma SliceOfSlice(p: seq<byte>, lo: nat, hi: nat, at: nat, n: nat)
    requires lo + at + n <= hi <= |p|
    ensures p[lo..hi][at..at + n] == p[lo + at..lo + at + n]
  {
    var a, b := p[lo..hi][at..at + n], p[lo + at..lo + at + n];
    assert forall j :: 0 <= j < n ==> a[j] == p[lo + at + j] == b[j];
  }

  lemma SliceUnfolds(r: Reader, at: nat, n: nat)
    requires Formed(r) && r.Slice?
    ensures Read(r, at, n) == if at >= r.length then Ok([]) else Read(r.parent, r.offset + at, Min(n, r.length - at))
    ensures Piece(r, at) == if at >= r.length then 0 else Min(r.length - at, Piece(r.parent, r.offset + at))
    ensures var p := Content(r.parent); Content(r) == p[Min(r.offset, |p|)..Min(r.offset + r.length, |p|)]
  {
    hide EntryAt, Physical, IsHole, ByteAt, Wanted, U32, Zeros, Min;
    match r
    case Slice(parent, offset, length) =>
  }

  /** With the table entry read, a disk read is a hole or a read of the parent. */
  lemma TableRead(r: Reader, at: nat, n: nat)
    requires Formed(r) && r.Vmdk4? && at < r.size && Mapped(r, at)
    requires EntryAt(r, at / r.grainSize).Some? ==> RightRead(r.parent, EntryAt(r, at / r.grainSize).value, 4)
    ensures var physical, want := Physical(r, at), Wanted(r, at, n);
      Read(r, at, n) == if physical.None? then Ok(Zeros(want)) else Read(r.parent, physical.value, want)
  {
    hide Piece, Content, IsHole, U32;
  }

  lemma DiskRead(r: Reader, at: nat, n: nat)
    requires Formed(r) && r.Vmdk4? && at < r.size && Mapped(r, at)
    requires Physical(r, at).Some? ==> RightRead(r.parent, Physical(r, at).value, Wanted(r, at, n))
    requires var physical, want := Physical(r, at), Wanted(r, at, n);
      Read(r, at, n) == if physical.None? then Ok(Zeros(want)) else Read(r.parent, physical.value, want)
    ensures RightRead(r, at, n)
  {
    hide Read, EntryAt, U32, IsHole;
    var v := Read(r, at, n).value;
    var c := Content(r);
    forall j | 0 <= j < |v| ensures at + j < r.size && c[at + j] == v[j] {
      PhysicalNext(r, at, j);
      assert c[at + j] == ByteAt(r, at + j);
      if Physical(r, at).Some? {
        var p, k := Content(r.parent), Physical(r, at).value;
        assert p[k..k + |v|][j] == p[k + j];
      }
    }
    if v != [] { assert c[at..at + |v|] == v; }
  }

  lemma PhysicalNext(r: Reader, at: nat, j: nat)
    requires Formed(r) && r.Vmdk4? && at % r.grainSize + j < r.grainSize
    ensures Physical(r, at + j) == if Physical(r, at).None? then None else Some(Physical(r, at).value + j)
  {
    hide Content;
    SameGrain(at, j, r.grainSize);
  }

  // ---- Which stacks are readable ----

  /** The tables and the mapped grains lie inside the parent. */
  ghost predicate Inside(r: Reader)
    requires Formed(r)
  {
    match r
    case Bytes(_) => true
    case Slice(parent, _, _) => Inside(parent)
    case Vmdk4(parent, _, _, _, _, size) => Inside(parent) && forall i :: 0 <= i < size ==> MappedInside(r, i)
  }

  ghost predicate MappedInside(r: Reader, i: nat)
    requires Formed(r) && r.Vmdk4? && i < r.size
  {
    var entryAt := EntryAt(r, i / r.grainSize);
    && (entryAt.Some? ==> entryAt.value + 4 <= |Content(r.parent)|)
    && (Physical(r, i).Some? ==> Physical(r, i).value < |Content(r.parent)|)
  }

  /** Slices start at multiples of four, and grains are whole sectors. */
  predicate Aligned(r: Reader) {
    match r
    case Bytes(data) => |data| % 4 == 0
    case Slice(parent, offset, length) => offset % 4 == 0 && length % 4 == 0 && Aligned(parent)
    case Vmdk4(parent, _, _, _, grainSize, size) => grainSize % SECTOR == 0 && size % SECTOR == 0 && Aligned(parent)
  }

  lemma AlignedInGrain(at: nat, g: nat)
    requires g > 0 && g % SECTOR == 0 && at % 4 == 0
    ensures at % g % 4 == 0 && at % g + 4 <= g
  {
    var q, k, rest := at / g, g / 4, at % g;
    assert g == 4 * k;
    Fourfold(q, k);
    InFours(at, q * k, rest, k);
  }

  lemma Fourfold(q: nat, k: nat)
    ensures q * (4 * k) == 4 * (q * k)
  {
    MulDouble(q, 2 * k);
    MulDouble(q, k);
  }

  lemma InFours(at: nat, m: nat, rest: nat, k: nat)
    requires at == 4 * m + rest && at % 4 == 0 && rest < 4 * k
    ensures rest % 4 == 0 && rest + 4 <= 4 * k
  {
    var d := at / 4 - m;
    assert rest == 4 * d;
    QuotientIs(rest, 4, d, 0);
  }

  /** Aligned words are never cut in two. */
  lemma {:induction false} WordInOnePiece(r: Reader, at: nat)
    requires Formed(r) && Sound(r) && Aligned(r) && at % 4 == 0 && at + 4 <= |Content(r)|
    ensures Piece(r, at) >= 4
    decreases r
  {
    hide Content, Physical, Piece, Read, Mapped, EntryAt, Min;
    match r
    case Bytes(data) => BytesPiece(r, at);
    case Slice(parent, offset, length) =>
      SliceWord(r, at);
      WordInOnePiece(parent, offset + at);
    case Vmdk4(parent, _, _, _, grainSize, size) =>
      AlignedInGrain(at, grainSize);
      PhysicalAligned(r, at);
      PhysicalThere(r, at);
      if Physical(r, at).Some? {
        WordInOnePiece(parent, Physical(r, at).value);
      }
      DiskPiece(r, at);
  }

  lemma SliceWord(r: Reader, at: nat)
    requires Formed(r) && r.Slice? && r.offset % 4 == 0 && r.length % 4 == 0 && at % 4 == 0 && at + 4 <= |Content(r)|
    ensures (r.offset + at) % 4 == 0 && r.offset + at + 4 <= |Content(r.parent)|
    ensures Piece(r.parent, r.offset + at) >= 4 ==> Piece(r, at) >= 4
  {
    hide Content, Piece, Read;
    SliceUnfolds(r, at, 0);
    WordsAdd(r.offset, at, r.length);
  }

  lemma WordsAdd(a: nat, b: nat, c: nat)
    requires a % 4 == 0 && b % 4 == 0 && c % 4 == 0
    ensures (a + b) % 4 == 0 && (b < c ==> b + 4 <= c)
  {
  }

  lemma PhysicalThere(r: Reader, at: nat)
    requires Formed(r) && Sound(r) && r.Vmdk4? && at + 4 <= r.size && at % r.grainSize + 4 <= r.grainSize
    ensures Physical(r, at).Some? ==> Physical(r, at).value + 4 <= |Content(r.parent)|
  {
    hide Content, Physical, Piece, Read, EntryAt;
    PhysicalNext(r, at, 3);
    assert Mapped(r, at + 3);
  }

  lemma BytesPiece(r: Reader, at: nat)
    requires Formed(r) && r.Bytes?
    ensures Piece(r, at) == if at < |Content(r)| then |Content(r)| - at else 0
  {
  }

  lemma DiskPiece(r: Reader, at: nat)
    requires Formed(r) && r.Vmdk4? && at + 4 <= r.size && at % r.grainSize + 4 <= r.grainSize
    requires Physical(r, at).Some? ==> Piece(r.parent, Physical(r, at).value) >= 4
    ensures Piece(r, at) >= 4
  {
    hide Physical, Content;
  }

  lemma PhysicalAligned(r: Reader, at: nat)
    requires Formed(r) && r.Vmdk4? && at % r.grainSize % 4 == 0
    ensures Physical(r, at).Some? ==> Physical(r, at).value % 4 == 0
  {
    hide Content, U32, IsHole;
  }

  /** A stack whose slices are aligned is readable if tables and grains are inside their parents. */
  lemma {:induction false} AlignedIsSound(r: Reader)
    requires Formed(r) && Inside(r) && Aligned(r)
    ensures Sound(r)
    decreases r
  {
    hide Content, Physical, Piece, Read, EntryAt, MappedInside, Mapped;
    match r
    case Bytes(_) =>
    case Slice(parent, _, _) => AlignedIsSound(parent);
    case Vmdk4(parent, _, _, _, _, size) =>
      AlignedIsSound(parent);
      forall i | 0 <= i < size ensures Mapped(r, i) {
        InsideIsMapped(r, i);
      }
  }

  lemma InsideIsMapped(r: Reader, i: nat)
    requires Formed(r) && r.Vmdk4? && Sound(r.parent) && Aligned(r.parent) && i < r.size && MappedInside(r, i)
    ensures Mapped(r, i)
  {
    hide Content, Physical, Piece, Read, Sound, Aligned;
    if EntryAt(r, i / r.grainSize).Some? {
      WordInOnePiece(r.parent, EntryAt(r, i / r.grainSize).value);
    }
  }

  /** A table entry that a single read of the parent does not return whole makes every read of its
      grain fail, even if the entry is there. */
  lemma CutEntryFails(r: Reader, at: nat, n: nat)
    requires Formed(r) && r.Vmdk4? && at < r.size && Sound(r.parent)
    requires EntryAt(r, at / r.grainSize).Some? && Piece(r.parent, EntryAt(r, at / r.grainSize).value) < 4
    ensures Read(r, at, n) == Err(ShortTable)
  {
    ReadIsRight(r.parent, EntryAt(r, at / r.grainSize).value, 4);
  }

  ghost predicate NoneFails(r: Reader)
    requires Formed(r) && r.Vmdk4?
  {
    forall i :: 0 <= i < r.size ==> Read(r, i, 1).Ok?
  }

  /** So a disk is readable, over a readable parent that holds its tables and grains, exactly if no
      read of it fails. */
  lemma SoundIffReadable(r: Reader)
    requires Formed(r) && r.Vmdk4? && Sound(r.parent) && forall i :: 0 <= i < r.size ==> MappedInside(r, i)
    ensures Sound(r) <==> NoneFails(r)
  {
    if Sound(r) {
      forall i | 0 <= i < r.size ensures Read(r, i, 1).Ok? { ReadIsRight(r, i, 1); }
    } else {
      var i :| 0 <= i < r.size && !Mapped(r, i);
      assert MappedInside(r, i);
      CutEntryFails(r, i, 1);
    }
  }

  /** No read of a byte fails, of this disk or of any below it. */
  ghost predicate Readable(r: Reader)
    requires Formed(r)
  {
    match r
    case Bytes(_) => true
    case Slice(parent, _, _) => Readable(parent)
    case Vmdk4(parent, _, _, _, _, _) => Readable(parent) && NoneFails(r)
  }

  /** For whole stacks of disks as opened, with the directory entries they were left with: if all tables
      and grains are inside their parents, every read of every layer is right if and only if no read of
      a byte fails. */
  lemma {:induction false} ReadableIffSound(r: Reader)
    requires Formed(r) && Inside(r)
    ensures Sound(r) <==> Readable(r)
    decreases r
  {
    hide NoneFails, MappedInside, Mapped;
    match r
    case Bytes(_) =>
    case Slice(parent, _, _) => ReadableIffSound(parent);
    case Vmdk4(parent, _, _, _, _, _) =>
      ReadableIffSound(parent);
      if Sound(parent) { SoundIffReadable(r); }
  }

  /** The disk with only the first k entries of its directory. */
  function WithFirst(w: Reader, k: nat): (r: Reader)
    requires w.Vmdk4? && k <= |w.gd|
  {
    w.(gd := w.gd[..k])
  }

  /** The table of the directory that byte i of the disk is looked up in. */
  function TableOf(w: Reader, i: nat): nat
    requires w.Vmdk4? && Formed(w)
  {
    i / w.grainSize / w.perTable
  }

  lemma FirstEntries(w: Reader, k: nat, i: nat)
    requires w.Vmdk4? && k <= |w.gd| && Formed(w)
    ensures EntryAt(WithFirst(w, k), i / w.grainSize) == if TableOf(w, i) < k then EntryAt(w, i / w.grainSize) else None
  {
  }

  lemma FirstPhysical(w: Reader, k: nat, i: nat)
    requires w.Vmdk4? && k <= |w.gd| && Formed(w)
    ensures Formed(WithFirst(w, k)) && Physical(WithFirst(w, k), i) == if TableOf(w, i) < k then Physical(w, i) else None
  {
    hide U32, Content, EntryAt, TableOf;
    FirstEntries(w, k, i);
  }

  lemma FirstBytes(w: Reader, k: nat, i: nat)
    requires w.Vmdk4? && k <= |w.gd| && Formed(w)
    ensures Formed(WithFirst(w, k)) && ByteAt(WithFirst(w, k), i) == if TableOf(w, i) < k then ByteAt(w, i) else 0
  {
    hide Content, Physical, TableOf;
    FirstPhysical(w, k, i);
  }

  lemma ByteOfContent(r: Reader, i: nat)
    requires Formed(r) && r.Vmdk4? && i < r.size
    ensures Content(r)[i] == ByteAt(r, i)
  {
    hide ByteAt;
  }

  /** Under the tables that are left the disk is as before; under the others it is all zeros. */
  lemma FirstTables(w: Reader, k: nat, i: nat)
    requires w.Vmdk4? && k <= |w.gd| && Formed(w) && i < w.size
    ensures Formed(WithFirst(w, k)) && Content(WithFirst(w, k))[i] == if TableOf(w, i) < k then Content(w)[i] else 0
  {
    hide EntryAt, ByteAt, Content, TableOf;
    FirstBytes(w, k, i);
    ByteOfContent(WithFirst(w, k), i);
    ByteOfContent(w, i);
  }

  /** Under every table from number k on the disk is zeros. */
  ghost predicate ZerosFrom(w: Reader, k: nat)
    requires Formed(w) && w.Vmdk4?
  {
    forall i :: 0 <= i < w.size && TableOf(w, i) >= k ==> Content(w)[i] == 0
  }

  lemma SameIfZeros(w: Reader, k: nat)
    requires w.Vmdk4? && k <= |w.gd| && Formed(w)
    ensures Formed(WithFirst(w, k)) && (Content(WithFirst(w, k)) == Content(w) <==> ZerosFrom(w, k))
  {
    hide Content, TableOf;
    forall i | 0 <= i < w.size ensures Content(WithFirst(w, k))[i] == if TableOf(w, i) < k then Content(w)[i] else 0 {
      FirstTables(w, k, i);
    }
  }

  /** Under the first k tables no table entry is cut by the end of a piece of the parent. */
  ghost predicate EntriesWhole(w: Reader, k: nat)
    requires Formed(w) && w.Vmdk4?
  {
    forall i :: 0 <= i < w.size && TableOf(w, i) < k ==> EntryWhole(w, i)
  }

  ghost predicate EntryWhole(w: Reader, i: nat)
    requires Formed(w) && w.Vmdk4?
  {
    EntryAt(w, i / w.grainSize).Some? ==> Piece(w.parent, EntryAt(w, i / w.grainSize).value) >= 4
  }

  /** Byte for byte, reading gives this content. */
  ghost predicate ReadsAs(r: Reader, c: seq<byte>)
    requires Formed(r)
  {
    forall i :: 0 <= i < |c| ==> Read(r, i, 1) == Ok([c[i]])
  }

  lemma FirstMapped(w: Reader, k: nat, i: nat)
    requires w.Vmdk4? && k <= |w.gd| && Formed(w) && i < w.size && MappedInside(w, i)
    ensures Formed(WithFirst(w, k)) && MappedInside(WithFirst(w, k), i)
    ensures Mapped(WithFirst(w, k), i) <==> TableOf(w, i) >= k || EntryWhole(w, i)
  {
    hide Content, Physical, TableOf, EntryAt, Piece;
    FirstEntries(w, k, i);
    FirstPhysical(w, k, i);
  }

  lemma FirstSound(w: Reader, k: nat)
    requires w.Vmdk4? && k <= |w.gd| && Formed(w) && Sound(w.parent) && forall i :: 0 <= i < w.size ==> MappedInside(w, i)
    ensures Formed(WithFirst(w, k)) && (Sound(WithFirst(w, k)) <==> EntriesWhole(w, k))
    ensures Sound(WithFirst(w, k)) <==> NoneFails(WithFirst(w, k))
  {
    hide Mapped, MappedInside, EntryWhole, TableOf, Read;
    var r := WithFirst(w, k);
    forall i | 0 <= i < w.size
      ensures MappedInside(r, i) && (Mapped(r, i) <==> TableOf(w, i) >= k || EntryWhole(w, i))
    {
      FirstMapped(w, k, i);
    }
    SoundIffReadable(r);
  }

  lemma OneByteRead(r: Reader, i: nat)
    requires Formed(r) && Sound(r) && i < |Content(r)|
    ensures Read(r, i, 1) == Ok([Content(r)[i]])
  {
    hide Content, Read, Piece, Sound;
    ReadIsRight(r, i, 1);
    var v := Read(r, i, 1).value;
    assert v == Content(r)[i..i + 1] == [Content(r)[i]];
  }

  /** A disk left with the first k entries of its directory reads as the whole one holds exactly if
      no table entry left is cut, and there is nothing but zeros under the tables lost. */
  lemma FirstReadsAs(w: Reader, k: nat)
    requires w.Vmdk4? && k <= |w.gd| && Formed(w) && Sound(w.parent) && forall i :: 0 <= i < w.size ==> MappedInside(w, i)
    ensures Formed(WithFirst(w, k)) && (ReadsAs(WithFirst(w, k), Content(w)) <==> EntriesWhole(w, k) && ZerosFrom(w, k))
  {
    hide Content, Read, Sound, MappedInside, EntriesWhole, ZerosFrom;
    var r := WithFirst(w, k);
    FirstSound(w, k);
    SameIfZeros(w, k);
    if Sound(r) {
      forall i | 0 <= i < w.size ensures Read(r, i, 1) == Ok([Content(r)[i]]) { OneByteRead(r, i); }
      if ReadsAs(r, Content(w)) {
        forall i | 0 <= i < w.size ensures Content(r)[i] == Content(w)[i] {
          var v := Read(r, i, 1).value;
          assert v[0] == Content(r)[i] && v[0] == Content(w)[i];
        }
      }
    } else {
      var i :| 0 <= i < w.size && Read(r, i, 1).Err?;
      assert i < |Content(w)|;
    }
  }

  // ---- The code ----

  /** The first bytes of the buffer are those of the read; those past its end are left alone. */
  ghost predicate Filled(v: Result<seq<byte>, Error>, before: seq<byte>, after: seq<byte>, len: nat, res: Result<nat, Error>) {
    && len <= |before| == |after| && after[len..] == before[len..]
    && match res
       case Ok(n) => v.Ok? && n <= len && after[..n] == v.value
       case Err(e) => v == Err(e)
  }

  method FillZeros(buf: array<byte>, len: nat)
    requires len <= buf.Length
    modifies buf
    ensures buf[..len] == Zeros(len) && buf[len..] == old(buf[len..])
  {
    for i := 0 to len
      invariant buf[..i] == Zeros(i) && buf[len..] == old(buf[len..])
    {
      buf[i] := 0;
      assert Zeros(i + 1) == Zeros(i) + [0];
    }
  }

  method ReadGtEntry(r: Reader, at: nat) returns (res: Result<nat, Error>)
    requires Formed(r)
    ensures var v := Read(r, at, 4);
      res == if v.Err? then Err(v.error) else if |v.value| != 4 then Err(ShortTable) else Ok(U32(v.value))
    decreases r, 3
  {
    var buf := new byte[4];
    var n := ReadAt(r, at, buf, 4);
    if n.Err? {
      return Err(n.error);
    }
    if n.value != 4 {
      return Err(ShortTable);
    }
    assert buf[..4] == buf[..];
    res := Ok(U32(buf[..]));
  }

  /** Fill the first len places of the buffer, or some of them, from this offset. */
  method ReadAt(r: Reader, at: nat, buf: array<byte>, len: nat) returns (res: Result<nat, Error>)
    requires Formed(r) && len <= buf.Length
    modifies buf
    ensures Filled(Read(r, at, len), old(buf[..]), buf[..], len, res)
    decreases r, 2
  {
    hide Read, EntryAt, IsHole, Filled;
    ReadUnfolds(r, at, len);
    match r
    case Bytes(data) =>
      if at >= |data| {
        NothingFilled(buf[..], len);
        return Ok(0);
      }
      var n := Min(len, |data| - at);
      for i := 0 to n
        invariant buf[..i] == data[at..at + i] && buf[len..] == old(buf[len..])
      {
        buf[i] := data[at + i];
      }
      res := Ok(n);
      FilledWith(old(buf[..]), buf[..], len, data[at..at + n], n);
    case Slice(parent, offset, length) =>
      if at >= length {
        NothingFilled(buf[..], len);
        return Ok(0);
      }
      var n := Min(len, length - at);
      res := ReadAt(parent, offset + at, buf, n);
      FilledWider(Read(parent, offset + at, n), old(buf[..]), buf[..], n, len, res);
    case Vmdk4(_, _, _, _, _, size) =>
      if at >= size {
        NothingFilled(buf[..], len);
        return Ok(0);
      }
      res := ReadDisk(r, at, buf, len);
  }

  method ReadDisk(r: Reader, at: nat, buf: array<byte>, len: nat) returns (res: Result<nat, Error>)
    requires Formed(r) && r.Vmdk4? && at < r.size && len <= buf.Length
    modifies buf
    ensures Filled(Read(r, at, len), old(buf[..]), buf[..], len, res)
    decreases r, 1
  {
    hide Read, EntryAt, IsHole, Filled;
    ReadUnfolds(r, at, len);
    var want := Wanted(r, at, len);
    var entryAt := EntryAt(r, at / r.grainSize);
    if entryAt.None? {
      FillZeros(buf, want);
      FilledWith(old(buf[..]), buf[..], len, Zeros(want), want);
      return Ok(want);
    }
    var entry := ReadGtEntry(r.parent, entryAt.value);
    if entry.Err? {
      NotFilled(buf[..], len, entry.error);
      return Err(entry.error);
    }
    if IsHole(r, entry.value) {
      FillZeros(buf, want);
      FilledWith(old(buf[..]), buf[..], len, Zeros(want), want);
      return Ok(want);
    }
    var physical := entry.value * SECTOR + at % r.grainSize;
    res := ReadAt(r.parent, physical, buf, want);
    FilledWider(Read(r.parent, physical, want), old(buf[..]), buf[..], want, len, res);
  }

  lemma ReadUnfolds(r: Reader, at: nat, n: nat)
    requires Formed(r)
    ensures Read(r, at, n) == match r
      case Bytes(data) => if at >= |data| then Ok([]) else Ok(data[at..at + Min(n, |data| - at)])
      case Slice(parent, offset, length) => if at >= length then Ok([]) else Read(parent, offset + at, Min(n, length - at))
      case Vmdk4(parent, _, _, _, grainSize, size) =>
        if at >= size then Ok([]) else if EntryAt(r, at / grainSize).None? then Ok(Zeros(Wanted(r, at, n))) else
          var entry := Read(parent, EntryAt(r, at / grainSize).value, 4);
          if entry.Err? then entry else if |entry.value| != 4 then Err(ShortTable)
          else if IsHole(r, U32(entry.value)) then Ok(Zeros(Wanted(r, at, n)))
          else Read(parent, U32(entry.value) * SECTOR + at % grainSize, Wanted(r, at, n))
  {
  }

  lemma NothingFilled(s: seq<byte>, len: nat)
    requires len <= |s|
    ensures Filled(Ok([]), s, s, len, Ok(0))
  {
  }

  lemma NotFilled(s: seq<byte>, len: nat, e: Error)
    requires len <= |s|
    ensures Filled(Err(e), s, s, len, Err(e))
  {
  }

  lemma FilledWith(before: seq<byte>, after: seq<byte>, len: nat, v: seq<byte>, n: nat)
    requires n <= len <= |before| == |after| && after[..n] == v && (after[len..] == before[len..] || after[n..] == before[n..])
    ensures Filled(Ok(v), before, after, len, Ok(n))
  {
    if after[n..] == before[n..] {
      assert after[len..] == after[n..][len - n..];
    }
  }

  lemma FilledWider(v: Result<seq<byte>, Error>, before: seq<byte>, after: seq<byte>, n: nat, len: nat, res: Result<nat, Error>)
    requires n <= len <= |before| && Filled(v, before, after, n, res)
    ensures Filled(v, before, after, len, res)
  {
    assert after[len..] == after[n..][len - n..];
  }

  /** Read everything: a readable stack yields exactly its flat sequence, unless that is too large. */
  method ReadAll(r: Reader) returns (res: Result<seq<byte>, Error>)
    requires Formed(r)
    ensures Sound(r) ==> res == if |Content(r)| <= MAX_SIZE then Ok(Content(r)) else Err(TooLarge)
  {
    hide Read, Content, Piece, Sound, Formed;
    var data: seq<byte> := [];
    var buf := new byte[READ_CHUNK];
    while true
      invariant |data| <= MAX_SIZE && (Sound(r) ==> data <= Content(r))
      decreases MAX_SIZE - |data|
    {
      if Sound(r) { ReadIsRight(r, |data|, READ_CHUNK); }
      var n := ReadAt(r, |data|, buf, READ_CHUNK);
      if n.Err? {
        return Err(n.error);
      }
      if n.value == 0 {
        if Sound(r) { assert data == Content(r)[..|data|] == Content(r); }
        return Ok(data);
      }
      data := data + buf[..n.value];
      if Sound(r) { assert data == Content(r)[..|data|]; }
      if |data| > MAX_SIZE {
        return Err(TooLarge);
      }
    }
  }
}
