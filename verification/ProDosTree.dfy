/** What it means for a ProDOS volume to hold a tree of files: every block accounted for. */
module ProDosTree {
  import opened Arithmetic
  import opened BlockVolume
  import opened ByteStrings
  import opened Chunks
  import opened FiniteSets
  import opened ProDosDirectory

  const SEEDLING_MAX := 512
  const SAPLING_MAX := 0x20000
  const FT_TXT := 0x04
  const FT_BIN := 0x06
  const FT_DIR := 0x0F
  const ROOT_ENTRIES := 51

  /** The host tree, names sanitised. */
  datatype Source = File(name: seq<byte>, data: seq<byte>) | Folder(name: seq<byte>, kids: seq<Source>)

  /** The same tree with the blocks it was given: a file's key block and, for a sapling, its data
      blocks; a directory's chain. */
  datatype Node =
    | FileNode(name: seq<byte>, data: seq<byte>, key: nat, more: seq<nat>)
    | FolderNode(name: seq<byte>, blocks: seq<nat>, kids: seq<Node>)

  ghost function SourcesOf(kids: seq<Node>): (s: seq<Source>)
    ensures |s| == |kids|
  {
    if kids == [] then [] else SourcesOf(kids[..|kids| - 1]) + [SourceOf(kids[|kids| - 1])]
  }

  ghost function SourceOf(node: Node): Source {
    match node
    case FileNode(name, data, _, _) => File(name, data)
    case FolderNode(name, _, ks) => Folder(name, SourcesOf(ks))
  }

  predicate NameFits(name: seq<byte>) {
    1 <= |name| <= MAX_NAME && IsAscii(name)
  }

  /** All names are as the sanitiser makes them. */
  predicate Sane(src: seq<Source>) {
    forall i :: 0 <= i < |src| ==> NameFits(src[i].name) && (src[i].Folder? ==> Sane(src[i].kids))
  }

  // ---- Files ----

  function Blocks(data: seq<byte>): nat {
    (|data| + BLOCK - 1) / BLOCK
  }

  /** Pointer i of an index block: low halves first, then high halves. */
  function Pointer(block: Block, i: nat): (b: nat)
    requires |block| == BLOCK && i < 256
  {
    var low: int, high: int := block[i], block[0x100 + i];
    low + 256 * high
  }

  ghost predicate ChunkHolds(d: Image, data: seq<byte>, key: nat, more: seq<nat>, i: nat)
    requires Shaped(d) && key < TOTAL_BLOCKS && i < |more| <= 256 && i < Blocks(data)
  {
    && Pointer(d[key], i) == more[i] < TOTAL_BLOCKS
    && d[more[i]][..|Chunk(BLOCK, data, i)|] == Chunk(BLOCK, data, i)
  }

  ghost predicate SaplingHolds(d: Image, data: seq<byte>, key: nat, more: seq<nat>)
    requires Shaped(d) && key < TOTAL_BLOCKS && |more| <= 256 && |more| <= Blocks(data)
  {
    && key !in Set(more) && (forall i, j :: 0 <= i < j < |more| ==> more[i] != more[j])
    && forall i :: 0 <= i < |more| ==> ChunkHolds(d, data, key, more, i)
  }

  /** The blocks given to a file hold its data. */
  ghost predicate FileHolds(d: Image, data: seq<byte>, key: nat, more: seq<nat>)
    requires Shaped(d)
  {
    && key < TOTAL_BLOCKS && |data| <= SAPLING_MAX
    && if |data| <= SEEDLING_MAX then more == [] && d[key][..|data|] == data
       else |more| == Blocks(data) <= 256 && SaplingHolds(d, data, key, more)
  }

  // ---- Trees ----

  ghost function Owned(node: Node): set<nat> {
    match node
    case FileNode(_, _, key, more) => {key} + Set(more)
    case FolderNode(_, blocks, kids) => Set(blocks) + OwnedAll(kids)
  }

  ghost function OwnedAll(kids: seq<Node>): set<nat> {
    if kids == [] then {} else OwnedAll(kids[..|kids| - 1]) + Owned(kids[|kids| - 1])
  }

  function FileType(name: seq<byte>): byte {
    if |name| >= 4 && name[|name| - 4..] == [0x2E, 0x54, 0x58, 0x54] then FT_TXT else FT_BIN
  }

  /** The node's numbers fit the fields of an entry. */
  ghost predicate EntryFits(node: Node) {
    match node
    case FileNode(name, data, key, more) => NameFits(name) && |data| <= SAPLING_MAX && key < TOTAL_BLOCKS && |more| <= 256
    case FolderNode(name, blocks, _) => NameFits(name) && 1 <= |blocks| <= TOTAL_BLOCKS && blocks[0] < TOTAL_BLOCKS
  }

  ghost function EntryOf(node: Node, header: u16): (e: seq<byte>)
    requires EntryFits(node)
    ensures |e| == ENTRY_LEN
  {
    match node
    case FileNode(name, data, key, more) =>
      EntryBytes(if |data| <= SEEDLING_MAX then ST_SEEDLING else ST_SAPLING, name, FileType(name), key, 1 + |more|, |data|, header)
    case FolderNode(name, blocks, _) => EntryBytes(ST_SUBDIR, name, FT_DIR, blocks[0], |blocks|, |blocks| * BLOCK, header)
  }

  ghost predicate AllFit(kids: seq<Node>) {
    forall i :: 0 <= i < |kids| ==> EntryFits(kids[i])
  }

  ghost function EntriesOf(kids: seq<Node>, header: u16): (es: seq<seq<byte>>)
    requires AllFit(kids)
    ensures |es| == |kids| && forall i :: 0 <= i < |kids| ==> es[i] == EntryOf(kids[i], header)
  {
    if kids == [] then [] else EntriesOf(kids[..|kids| - 1], header) + [EntryOf(kids[|kids| - 1], header)]
  }

  /** The volume holds the node: its contents are where its blocks say, and no block is used twice. */
  ghost predicate NodeHolds(d: Image, node: Node)
    requires Shaped(d)
    decreases node
  {
    match node
    case FileNode(_, data, key, more) => FileHolds(d, data, key, more)
    case FolderNode(_, blocks, kids) => FolderHolds(d, blocks, kids)
  }

  ghost predicate FolderHolds(d: Image, blocks: seq<nat>, kids: seq<Node>)
    requires Shaped(d)
    decreases kids, 1
  {
    && AllFit(kids) && blocks != [] && blocks[0] < TOTAL_BLOCKS
    && DirHolds(d, blocks, EntriesOf(kids, blocks[0]))
    && OwnedAll(kids) !! Set(blocks) && KidsHold(d, kids)
  }

  ghost predicate KidsHold(d: Image, kids: seq<Node>)
    requires Shaped(d)
    decreases kids, 0
  {
    kids == [] || (
      var m := |kids| - 1;
      KidsHold(d, kids[..m]) && NodeHolds(d, kids[m]) && Owned(kids[m]) !! OwnedAll(kids[..m]))
  }

  /** A tree stands while its blocks are left alone. */
  lemma {:induction false} NodeFrame(d: Image, d': Image, node: Node)
    requires Shaped(d) && Shaped(d') && NodeHolds(d, node) && FreeBlocks(d') <= FreeBlocks(d)
    requires forall b :: b in Owned(node) && b < TOTAL_BLOCKS ==> d'[b] == d[b]
    ensures NodeHolds(d', node)
    decreases node
  {
    match node
    case FileNode(_, data, key, more) =>
      FileFrame(d, d', data, key, more);
    case FolderNode(_, blocks, kids) =>
      assert forall i :: 0 <= i < |blocks| ==> blocks[i] in Set(blocks);
      DirFrame(d, d', blocks, EntriesOf(kids, blocks[0]));
      KidsFrame(d, d', kids);
  }

  lemma {:induction false} KidsFrame(d: Image, d': Image, kids: seq<Node>)
    requires Shaped(d) && Shaped(d') && KidsHold(d, kids) && FreeBlocks(d') <= FreeBlocks(d)
    requires forall b :: b in OwnedAll(kids) && b < TOTAL_BLOCKS ==> d'[b] == d[b]
    ensures KidsHold(d', kids)
    decreases kids
  {
    if kids != [] {
      KidsFrame(d, d', kids[..|kids| - 1]);
      NodeFrame(d, d', kids[|kids| - 1]);
    }
  }

  lemma FileFrame(d: Image, d': Image, data: seq<byte>, key: nat, more: seq<nat>)
    requires Shaped(d) && Shaped(d') && FileHolds(d, data, key, more)
    requires forall b :: b in {key} + Set(more) && b < TOTAL_BLOCKS ==> d'[b] == d[b]
    ensures FileHolds(d', data, key, more)
  {
    if |data| > SEEDLING_MAX {
      forall i | 0 <= i < |more| ensures ChunkHolds(d', data, key, more, i) {
        assert ChunkHolds(d, data, key, more, i) && more[i] in Set(more);
      }
    }
  }

  // ---- What a tree costs ----

  function FileCost(data: seq<byte>): nat {
    if |data| <= SEEDLING_MAX then 1 else 1 + Blocks(data)
  }

  /** The blocks that a list of files and folders takes, with the growth of the directory that
      lists them. */
  function Cost(src: seq<Source>, fixed: bool): nat {
    if src == [] then 0 else
      var m := |src| - 1;
      Cost(src[..m], fixed) + NodeCost(src[m]) + Growth(fixed, m)
  }

  function NodeCost(s: Source): nat {
    match s
    case File(_, data) => FileCost(data)
    case Folder(_, kids) => 1 + Cost(kids, false)
  }

  predicate AllSmall(src: seq<Source>) {
    forall i :: 0 <= i < |src| ==> NodeSmall(src[i])
  }

  predicate NodeSmall(s: Source) {
    match s
    case File(_, data) => |data| <= SAPLING_MAX
    case Folder(_, kids) => AllSmall(kids)
  }

  /** Whether the volume can take the tree. */
  predicate Fits(src: seq<Source>, fixed: bool, free: nat) {
    AllSmall(src) && (fixed ==> |src| <= ROOT_ENTRIES) && Cost(src, fixed) <= free
  }

  lemma {:induction false} CostGrows(src: seq<Source>, fixed: bool, i: nat)
    requires i <= |src|
    ensures Cost(src[..i], fixed) <= Cost(src, fixed)
  {
    if i == |src| {
      assert src[..i] == src;
    } else {
      CostGrows(src[..|src| - 1], fixed, i);
      assert src[..|src| - 1][..i] == src[..i];
    }
  }

  // ---- What the reader should find ----

  type Path = seq<seq<byte>>

  function FilesOf(prefix: Path, src: seq<Source>): map<Path, seq<byte>>
    decreases src
  {
    if src == [] then map[] else
      var m := |src| - 1;
      FilesOf(prefix, src[..m]) + NodeFiles(prefix, src[m])
  }

  function NodeFiles(prefix: Path, s: Source): map<Path, seq<byte>>
    decreases s
  {
    match s
    case File(name, data) => map[prefix + [name] := data]
    case Folder(name, kids) => FilesOf(prefix + [name], kids)
  }

  /** Following the names of the path through the tree leads to a file with this data. */
  ghost predicate Reaches(src: seq<Source>, path: Path, data: seq<byte>) {
    exists k :: 0 <= k < |src| && NodeReaches(src[k], path, data)
  }

  ghost predicate NodeReaches(s: Source, path: Path, data: seq<byte>) {
    path != [] && path[0] == s.name && match s
    case File(_, d) => |path| == 1 && d == data
    case Folder(_, kids) => Reaches(kids, path[1..], data)
  }

  ghost predicate NamesDiffer(src: seq<Source>) {
    && (forall i, j :: 0 <= i < j < |src| ==> src[i].name != src[j].name)
    && forall i :: 0 <= i < |src| && src[i].Folder? ==> NamesDiffer(src[i].kids)
  }

  ghost predicate Holds(files: map<Path, seq<byte>>, path: Path, data: seq<byte>) {
    path in files && files[path] == data
  }

  /** Every path read starts with the prefix and the name of a node. */
  lemma {:induction false} PathsStart(prefix: Path, src: seq<Source>, path: Path)
    requires path in FilesOf(prefix, src)
    ensures |path| > |prefix| && path[..|prefix|] == prefix && exists k :: 0 <= k < |src| && src[k].name == path[|prefix|]
    decreases src
  {
    var m := |src| - 1;
    if path in NodeFiles(prefix, src[m]) {
      match src[m]
      case File(name, _) =>
      case Folder(name, kids) =>
        PathsStart(prefix + [name], kids, path);
        assert path[..|prefix|] == path[..|prefix + [name]|][..|prefix|];
        assert path[|prefix|] == path[..|prefix + [name]|][|prefix|] == name;
    } else {
      PathsStart(prefix, src[..m], path);
      var k :| 0 <= k < m && src[..m][k].name == path[|prefix|];
      assert src[k].name == path[|prefix|];
    }
  }

  /** The files listed are those of the tree, each at its path and with its data. */
  lemma {:induction false} FilesAreReached(prefix: Path, src: seq<Source>, rest: Path, data: seq<byte>)
    requires NamesDiffer(src)
    ensures Holds(FilesOf(prefix, src), prefix + rest, data) <==> Reaches(src, rest, data)
    decreases src
  {
    if src != [] {
      var m := |src| - 1;
      var path := prefix + rest;
      assert NamesDiffer(src[..m]);
      FilesAreReached(prefix, src[..m], rest, data);
      NodeIsReached(prefix, src[m], rest, data);
      assert forall k :: 0 <= k < m ==> src[..m][k] == src[k];
      assert Reaches(src, rest, data) <==> Reaches(src[..m], rest, data) || NodeReaches(src[m], rest, data);
      if path in NodeFiles(prefix, src[m]) {
        NodePathStarts(prefix, src[m], path);
        NotListed(prefix, src[..m], path);
      }
    }
  }

  lemma NotListed(prefix: Path, src: seq<Source>, path: Path)
    requires |path| > |prefix| && forall k :: 0 <= k < |src| ==> src[k].name != path[|prefix|]
    ensures path !in FilesOf(prefix, src)
  {
    if path in FilesOf(prefix, src) {
      PathsStart(prefix, src, path);
    }
  }

  lemma {:induction false} NodeIsReached(prefix: Path, s: Source, rest: Path, data: seq<byte>)
    requires s.Folder? ==> NamesDiffer(s.kids)
    ensures Holds(NodeFiles(prefix, s), prefix + rest, data) <==> NodeReaches(s, rest, data)
    decreases s
  {
    var path := prefix + rest;
    if path in NodeFiles(prefix, s) {
      NodePathStarts(prefix, s, path);
    }
    match s
    case File(name, d) =>
      assert path == prefix + [name] ==> rest == [name];
    case Folder(name, kids) =>
      if rest != [] && rest[0] == name {
        FilesAreReached(prefix + [name], kids, rest[1..], data);
        assert prefix + [name] + rest[1..] == path;
      }
  }

  lemma NodePathStarts(prefix: Path, s: Source, path: Path)
    requires path in NodeFiles(prefix, s)
    ensures |path| > |prefix| && path[..|prefix|] == prefix && path[|prefix|] == s.name
  {
    assert FilesOf(prefix, [s]) == FilesOf(prefix, []) + NodeFiles(prefix, s) by { assert [s][..0] == []; }
    PathsStart(prefix, [s], path);
  }
}
