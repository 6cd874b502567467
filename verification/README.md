# Mountin: a verified model

A Dafny model of the parts of Mountin whose correctness is hardest to see, with proofs. Every module
is one `.dfy` file; `dafny verify dfyconfig.toml` checks them all.

| files | what they model |
|---|---|
| `DeepTree`, `DeepRebuild`, `DeepTables`, `BitReader`, `DeepCodec` | the DMS "Deep" decoder: an adaptive Huffman tree in three arrays, re-sorted on every symbol and rebuilt when its total saturates, and the shift register it reads from |
| `CanonicalCode`, `HeavyTable`, `HeavyDecoder` | the DMS "Heavy" decoder: a canonical prefix code, the recursive procedure that makes its table and tree, and the descent that decodes with them |
| `OutputIndex`, `DependencyGraph`, `BuildOrder`, `BuildGraph`, `BuildPlan` | the catalogue: which outputs are buildable, what the targets need, in what order, and that the build loop can follow it |
| `Transactions`, `BuildCache`, `Runner`, `RunsOn` | output transactions with a stop at any step, input hashes, the incremental build loop, and running in another provider's image |
| `BlockVolume`, `ProDosDirectory`, `ProDosTree`, `ProDos`, `ProDosReader`, `ProDosReadBack`, `ProDosImage` | the ProDOS formatter, its reader on any volume, and its check |
| `ResearchUnix`, `ResearchUnixImage` | the V6, 32V and V10 formatter: free list, superblock, inodes, and its check |
| `RsDos`, `AtariDos`, `Chains` | the RS-DOS and Atari DOS formatters, and their readers on any image |
| `Base64`, `ArmoredStream`, `GuestRelay` | the line-armoured 9P tunnel, host side and guest side |
| `Scl` | the SCL packer and the TRD reconstruction |
| `ReaderStack`, `VmdkHeader`, `NestedDisks` | slices and sparse VMDK disks stacked on one another, `read_all`, the opening of VMDK and 2IMG headers, and two files of nested disks |
| `Wrappers`, `Sequences`, `Arithmetic`, `Sums`, `Bits`, `ByteStrings`, `FiniteSets`, `Chunks` | vocabulary shared by these |

Code that changes state is modelled by classes and methods over arrays, sequences and maps, each
proved against a specification; what the specifications promise is proved by lemmas beside them.
Shifts and masks are written as multiplication, division and remainder by powers of two. Numbers
of 8, 16 and 32 bits are subset types, so that every assignment to one is a proof that it does not
overflow.

## What the proofs show of the code

Most of what the code intends holds on all inputs, and is proved so. Where it does not, there is a
lemma with a witness, and the exact condition is proved.

- Two provider instances that need each other through different outputs pass the cycle check, which
  prunes on outputs and looks for instances. The order then lacks both, without an error
  (`BuildGraph.BuildCrossed`, from the declarations). `BuildPlan.ReachedIff` says exactly which needed
  files the build loop gets to: those whose instance depends on no instance cycle.
- The safety of output transactions holds for files (`Transactions.FileSurvives`), over all
  sequences of interrupted and failed attempts. For a directory it does not: the removal of its backup
  can stop half-way, and any failed attempt after that restores the half (`Transactions.DirectoryIsLost`,
  for every directory that is not empty; `Transactions.DirectoryCanBeLost`, two contents). Old or new
  content is whole at every stop of a commit if and only if the old content is a file or an empty
  directory (`Transactions.CommitHoldsIff`).
- A directory output, once recorded for the present inputs, counts as clean by its presence alone.
  Clean means made, whatever lies there, if and only if a file was recorded
  (`BuildCache.OnlyFilesAreChecked`). A commit that was stopped, and sources then put back, leave the
  new directory in place of the old one, or half of one, without the next build noticing
  (`BuildCache.StoppedIsTrusted`, `BuildCache.HalfIsTrusted`). Runs that are not killed keep every
  recorded directory as made (`Runner.Engine.Run`).
- The input hash records the image a provider runs on exactly if that image is among its requirements,
  or among those of an image it requires. Then, and only then, does clean mean made
  (`RunsOn.CleanIsMadeIff`). Otherwise a run can succeed over an output that no build would make
  (`RunsOn.RunOverStale`).
- `make_table` succeeds exactly if the code lengths claim the whole code space. Its "table overflow",
  "codeword overflow" and "incomplete table" errors cannot occur (`HeavyTable.MakeTable`).
- The Heavy decoder looks at 16 bits beyond its table. It is right on all streams if and only if no
  code is longer than that (`HeavyDecoder.RightIff`); the five-bit lengths of the character tree allow
  longer ones (`HeavyDecoder.StaircaseFails`).
- The host relays 9P messages up to 16 MiB, but the guest's line buffer ends its relay at any over
  12582909 bytes (`GuestRelay.AllArriveIff`).
- A VMDK in a 2IMG image on another VMDK can be opened, and have all its data there, and still not be
  readable: a table entry can lie across two grains of the outer disk (`NestedDisks.MisalignedFails`, a
  file of bytes). `ReaderStack.ReadableIffSound` is the exact condition for disks as opened.
- Opening takes the grain directory from one read. What that does not return is silently cut off, and
  the data under it reads as zeros (`NestedDisks.DirectoryIsCut`, a file of bytes, in which no read
  fails). The directory is whole if and only if it lies in one piece of the parent
  (`VmdkHeader.OpenedIsWhole`). The disk opened holds what the file says if and only if there are only
  zeros under what was cut off (`VmdkHeader.OpenedHolds`), and reads so if and only if besides no table
  entry left is cut (`VmdkHeader.OpenedReadsRight`).
- The loop guards of the RS-DOS and Atari DOS readers are exact: they fire only for chains that do not
  end (`RsDos.FollowChain`, `AtariDos.ReadChain`). The check of a Research Unix image passes exactly for
  images that hold their nodes (`ResearchUnixImage.VerifyImage`).
- A V6 directory with 254 subdirectories needs 256 links and is refused, as is an SCL file over 255
  sectors: both by a `struct` error rather than a message (part of the fitting conditions of
  `ResearchUnixImage.CreateImage` and `Scl.CreateScl`).

In the table below, a member that changes state is named with its class. Lines are those of the
code modelled.

## Model

| member | source | states |
|---|---|---|
| DeepTree.ExchangeKeepsLinks | src/mountin/lib/mountin/src/container/disk/dms.rs:465-482 | trading the sons of two nodes keeps `prnt` the inverse of `son`, sons below parents and every symbol on one leaf, whenever the sons lie below both nodes |
| DeepTree.LighterSonsAreLower | src/mountin/lib/mountin/src/container/disk/dms.rs:460-484 | the sons of a node lie below every node at least as heavy as it: why a trade cannot put a node above its own parent |
| DeepTree.TopIsBelowRoot | src/mountin/lib/mountin/src/container/disk/dms.rs:459-464 | the scan for the last lighter node stops below the sentinel, and below the root unless it starts there; the node found was the equal of the one counted, and is not its son |
| DeepTree.BumpStep | src/mountin/lib/mountin/src/container/disk/dms.rs:455-491 | one turn of the climb ends at the root with a valid tree, or leaves exactly one node pending, strictly higher up; only the root's turn changes the total |
| DeepTree.BumpBalances | src/mountin/lib/mountin/src/container/disk/dms.rs:455-491 | after one turn every inner node is the sum of its sons, but for the parent of the place the count ended at, which is one light |
| DeepTree.BumpCounts | src/mountin/lib/mountin/src/container/disk/dms.rs:455-491 | whatever trades places, one turn adds one to the leaf counted, and to no other symbol |
| DeepTree.Climb | src/mountin/lib/mountin/src/container/disk/dms.rs:455-491 | the climb ends, with the sibling property, links and sums all restored and one more at the root |
| DeepTree.ClimbCounts | src/mountin/lib/mountin/src/container/disk/dms.rs:455-491 | over the whole climb each symbol keeps its frequency, save the one counted |
| DeepRebuild.RootIsTotal | src/mountin/lib/mountin/src/container/disk/dms.rs:450-453 | the root's frequency is the sum over all 314 leaves, so the saturation test is a test of the total |
| DeepRebuild.LeavesCollected | src/mountin/lib/mountin/src/container/disk/dms.rs:406-412 | the first loop picks up exactly the symbols whose leaf lies below the index reached, each once |
| DeepRebuild.LeavesForest | src/mountin/lib/mountin/src/container/disk/dms.rs:406-412 | after the first loop: 314 leaves in order of frequency, each halved rounding up, at most half the old total and 157 together |
| DeepRebuild.PairedNodesStay | src/mountin/lib/mountin/src/container/disk/dms.rs:417-437 | the sum of the two lightest free nodes is inserted past both of them, so nodes that have a parent never move, and it is no more than all that is free, so nothing overflows |
| DeepRebuild.MergeStep | src/mountin/lib/mountin/src/container/disk/dms.rs:417-437 | one insert-and-shift keeps the array sorted, hands out the next pair and no other, gives the parent the sum of its sons, and conserves the sum of what is free |
| DeepRebuild.Merge | src/mountin/lib/mountin/src/container/disk/dms.rs:417-437 | the joining ends with one free node, which weighs what all leaves did |
| DeepRebuild.RelinkLinks | src/mountin/lib/mountin/src/container/disk/dms.rs:438-447 | if every son entry is handed out once, the last loop makes `prnt` its inverse, whatever was there before |
| DeepRebuild.RebuildKeepsTree | src/mountin/lib/mountin/src/container/disk/dms.rs:402-448 | from any valid tree the rebuild gives a valid tree, every symbol's frequency halved rounding up, with room below the maximum |
| DeepRebuild.CountIsExact | src/mountin/lib/mountin/src/container/disk/dms.rs:450-492 | counting a symbol adds one to it and to nothing else, after a halving if and only if the total had reached 0x8000 |
| DeepTables.FreshIsValid | src/mountin/lib/mountin/src/container/disk/dms.rs:379-400 | the arrays as first filled in form a valid tree with every symbol at frequency 1 |
| DeepTables.Tables.constructor | src/mountin/lib/mountin/src/container/disk/dms.rs:201-226 | the three arrays are distinct, of the sizes the code gives them, `prnt` zeroed |
| DeepTables.Tables.Init | src/mountin/lib/mountin/src/container/disk/dms.rs:379-400 | both initial loops leave that tree in the arrays, from any contents of all three arrays |
| DeepTables.Tables.CollectLeaves | src/mountin/lib/mountin/src/container/disk/dms.rs:404-412 | done in place: the front of `freq` and `son` is the list of leaves, though the loop overwrites what it reads |
| DeepTables.Tables.JoinNextPair | src/mountin/lib/mountin/src/container/disk/dms.rs:418-434 | the search down and the two block moves insert the parent at its sorted place, without index or 16-bit overflow |
| DeepTables.Tables.SlideIn | src/mountin/lib/mountin/src/container/disk/dms.rs:428-434 | a block moved up by one place, and the value put in the gap, is an insertion; the rest of the array stays |
| DeepTables.Tables.JoinPairs | src/mountin/lib/mountin/src/container/disk/dms.rs:413-437 | the loop carries out the merge specified, and ends |
| DeepTables.Tables.RelinkParents | src/mountin/lib/mountin/src/container/disk/dms.rs:438-447 | the parent array becomes the relinking specified |
| DeepTables.Tables.Reconstruct | src/mountin/lib/mountin/src/container/disk/dms.rs:402-448 | the whole rebuild in place equals the specified one |
| DeepTables.Tables.Swap | src/mountin/lib/mountin/src/container/disk/dms.rs:465-482 | the six assignments in their order equal the exchange, also when a son is a leaf |
| DeepTables.Tables.Raise | src/mountin/lib/mountin/src/container/disk/dms.rs:456-485 | one turn of the loop in place equals the specified step |
| DeepTables.Tables.Update | src/mountin/lib/mountin/src/container/disk/dms.rs:450-492 | every call, for any symbol on any valid tables, ends with valid tables and counts exactly one occurrence; no index or 16-bit overflow |
| BitReader.FieldSplit | src/mountin/lib/mountin/src/container/disk/dms.rs:146-151 | reading m + n bits at once is reading m and then n |
| BitReader.FieldParts | src/mountin/lib/mountin/src/container/disk/dms.rs:134-144 | shifting and masking a field gives its leading and its trailing bits |
| BitReader.BitReader.constructor | src/mountin/lib/mountin/src/container/disk/dms.rs:109-118 | the reader starts at the first bit, filled |
| BitReader.BitReader.Fill | src/mountin/lib/mountin/src/container/disk/dms.rs:120-133 | filling restores 16 to 23 bits without moving in the stream; past the end it feeds zeros, and the register never overflows |
| BitReader.BitReader.Peek | src/mountin/lib/mountin/src/container/disk/dms.rs:134-137 | the next n <= 16 bits of the stream, most significant first, zeros past its end |
| BitReader.BitReader.Drop | src/mountin/lib/mountin/src/container/disk/dms.rs:139-144 | moves on by exactly n bits |
| BitReader.BitReader.Get | src/mountin/lib/mountin/src/container/disk/dms.rs:146-151 | returns the next n bits and moves past them |
| DeepCodec.DecodeOfCode | src/mountin/lib/mountin/src/container/disk/dms.rs:494-500 | where the path from root to leaf of a symbol stands in the stream, the descent finds that symbol and uses up just the path |
| DeepCodec.DecodedIsCode | src/mountin/lib/mountin/src/container/disk/dms.rs:494-500 | any bits at all decode to a symbol, and the bits used are that symbol's path: the code is complete |
| DeepCodec.DecodeUndoesEncode | src/mountin/lib/mountin/src/container/disk/dms.rs:494-502 | encoder and decoder, each evolving its tree, stay in step over any sequence of symbols, through every rebuild |
| DeepCodec.PackReads | src/mountin/lib/mountin/src/container/disk/dms.rs:120-151 | bits packed into bytes, most significant first, are read back as they were |
| DeepCodec.RoundTrip | src/mountin/lib/mountin/src/container/disk/dms.rs:494-502 | for every tree and sequence of symbols, decoding the packed codes returns the sequence |
| DeepCodec.DecodeChar | src/mountin/lib/mountin/src/container/disk/dms.rs:494-502 | the loop over `get(1)` ends, returns the symbol the specification decodes, consumes its code, and leaves the tables updated for it |
| CanonicalCode.IntervalsApart | src/mountin/lib/mountin/src/container/disk/dms.rs:585-599 | ordered by length and then number, the code intervals of two symbols do not meet |
| CanonicalCode.StartAligned | src/mountin/lib/mountin/src/container/disk/dms.rs:585-599 | the interval of a symbol is exactly the windows that begin with its code |
| CanonicalCode.EnoughLeft | src/mountin/lib/mountin/src/container/disk/dms.rs:576-638 | how much of the code space the symbols not yet taken can fill, at most |
| HeavyTable.JoinSons | src/mountin/lib/mountin/src/container/disk/dms.rs:615-624 | two finished subtrees and a new inner node make a subtree over both halves of the code space |
| HeavyTable.RunIsOk | src/mountin/lib/mountin/src/container/disk/dms.rs:585-597 | the slots filled for a symbol are exactly the aligned run that begins with its code |
| HeavyTable.TableBuilder.NextSymbol | src/mountin/lib/mountin/src/container/disk/dms.rs:579-604 | the search finds the next symbol of the current length in order, or goes on to the next length having missed none |
| HeavyTable.TableBuilder.FillRun | src/mountin/lib/mountin/src/container/disk/dms.rs:586-598 | the run is written once, in increasing order, and never runs past the table |
| HeavyTable.TableBuilder.SymbolNode | src/mountin/lib/mountin/src/container/disk/dms.rs:579-599 | a leaf covers its node's interval, above or below the depth of the table |
| HeavyTable.TableBuilder.SymbolDue | src/mountin/lib/mountin/src/container/disk/dms.rs:579-604 | a symbol of the current length becomes a finished node; if there is none, nothing is taken and the length looked for is past the depth |
| HeavyTable.TableBuilder.Branch | src/mountin/lib/mountin/src/container/disk/dms.rs:614-624 | an inner node is made of two sons covering its halves; it fails only for want of symbols, and not at all if enough are left |
| HeavyTable.TableBuilder.Mktbl | src/mountin/lib/mountin/src/container/disk/dms.rs:576-638 | the mutual recursion ends, `len >= depth` throughout, and returns the root of a subtree that covers the interval at the current position |
| HeavyTable.TableBuilder.Build | src/mountin/lib/mountin/src/container/disk/dms.rs:657-665 | the table is complete if and only if the lengths claim the whole code space; otherwise the symbols have run out |
| HeavyTable.MakeTable | src/mountin/lib/mountin/src/container/disk/dms.rs:552-666 | Ok if and only if the Kraft sum of the lengths is at least 1; the only errors are those of running out of symbols (depth and inner nodes), never table or codeword overflow; on Ok all 2^tablebits slots, and nothing beyond, hold their symbol or the inner node for their prefix |
| HeavyTable.WalkFinds | src/mountin/lib/mountin/src/container/disk/dms.rs:615-637 | from an inner node of the table, following the bits of a window leads to the symbol whose code they are |
| HeavyTable.LookupMatches | src/mountin/lib/mountin/src/container/disk/dms.rs:552-666 | with a table built, every 32-bit window looks up a symbol whose canonical code it begins with |
| HeavyTable.CodesApart | src/mountin/lib/mountin/src/container/disk/dms.rs:585-599 | no window begins with the codes of two symbols |
| HeavyTable.LookupUndoesCode | src/mountin/lib/mountin/src/container/disk/dms.rs:552-666 | a window that begins with the code of a symbol, at whatever length, looks up that symbol |
| HeavyDecoder.CutSees | src/mountin/lib/mountin/src/container/disk/dms.rs:723-736 | of the window, the bits before the cut are what they were |
| HeavyDecoder.DescentStep | src/mountin/lib/mountin/src/container/disk/dms.rs:726-731 | one bit of the descent goes to the half of the code space it names, and to a higher node or a symbol: so it ends |
| HeavyDecoder.Descend | src/mountin/lib/mountin/src/container/disk/dms.rs:724-736 | the loop ends for any bits, and finds the symbol of the window with everything after the 16 bits seen taken for zeros |
| HeavyDecoder.DecodeSymbol | src/mountin/lib/mountin/src/container/disk/dms.rs:718-740 | table, descent and drops together: that symbol, and just its bits consumed; for codes of up to 16 bits more than the table resolves, never more bits than the register holds |
| HeavyDecoder.ShortIsRight | src/mountin/lib/mountin/src/container/disk/dms.rs:718-740 | a code no longer than the bits seen is decoded right |
| HeavyDecoder.LongIsWrong | src/mountin/lib/mountin/src/container/disk/dms.rs:724-737 | beside every longer code there is a window that is decoded to the wrong symbol |
| HeavyDecoder.RightIff | src/mountin/lib/mountin/src/container/disk/dms.rs:718-763 | decoding is right on all streams if and only if no symbol's code is over 16 bits longer than the table resolves |
| HeavyDecoder.DecodeSymbols | src/mountin/lib/mountin/src/container/disk/dms.rs:718-740 | codes written one after another come back as the symbols, in order |
| HeavyDecoder.TreesKeepApart | src/mountin/lib/mountin/src/container/disk/dms.rs:677-684 | the character tree survives the making of the position tree in the same two arrays, and the other way round |
| HeavyDecoder.PositionsAreRight | src/mountin/lib/mountin/src/container/disk/dms.rs:742-763 | positions, with lengths of four bits, are always decoded right |
| HeavyDecoder.StaircaseFails | src/mountin/lib/mountin/src/container/disk/dms.rs:668-740 | characters, with lengths of five bits, are not: lengths 1 to 28 and twice 29 make a table with which some stream is decoded wrong |
| OutputIndex.Register | src/mountin/catalogue.py:452-486 | an index of all declarations, refused if and only if an output is declared twice |
| OutputIndex.Lacks | src/mountin/catalogue.py:491-513 | whether some requirement is neither buildable nor allowed without a provider |
| OutputIndex.Settle | src/mountin/catalogue.py:486-513 | the withdrawing loop ends, and leaves the greatest set of outputs that is closed under requirements, in whatever order it goes through them |
| OutputIndex.BuildOutputIndex | src/mountin/catalogue.py:445-515 | the buildable outputs of the index are that greatest set; nothing else in a record changes |
| OutputIndex.GreatestIsUnique | src/mountin/catalogue.py:486-513 | there is only one such set, so the result does not depend on dictionary order |
| DependencyGraph.RankedIsAcyclic | src/mountin/catalogue.py:568-585 | outputs that could be finished one after another lie on no cycle |
| DependencyGraph.RankedIsClosed | src/mountin/catalogue.py:568-585 | whatever a finished output leads to is finished |
| DependencyGraph.Walker.CycleFound | src/mountin/catalogue.py:564-567 | an instance met again on the chain closes a genuine cycle of instances |
| DependencyGraph.Walker.Visit | src/mountin/catalogue.py:550-584 | visiting ends; the output is then finished, with everything it requires, its instance was not on the chain, and the only error is a genuine cycle: no `KeyError` is reachable |
| DependencyGraph.Walker.WalkNeeds | src/mountin/catalogue.py:582-584 | every requirement gets an edge and a visit, and none is of the output's own instance |
| DependencyGraph.Walker.AllWalked | src/mountin/catalogue.py:546-587 | once the stack is empty: visited is exactly what the roots reach, `needed` groups it by instance, the edges are exactly those of reachable outputs, and none lies on a cycle |
| DependencyGraph.Walk | src/mountin/catalogue.py:523-587 | `KeyError` only for a target that is not buildable, `ValueError` only with a genuine instance cycle on a path from the targets; otherwise `needed` and `edges` are exact and no reachable output depends on itself |
| BuildOrder.CountDependencies | src/mountin/catalogue.py:593-599 | `in_degree` counts the distinct other nodes depended on, and `adj` inverts that relation, however often an edge is repeated |
| BuildOrder.Release | src/mountin/catalogue.py:603-608 | counting down the dependents keeps every count equal to the dependencies not yet ordered, and queues those at zero |
| BuildOrder.OrderedMissesCycles | src/mountin/catalogue.py:601-608 | nothing in a sorted order depends on a cycle |
| BuildOrder.StuckDependsOnCycle | src/mountin/catalogue.py:601-608 | a node left over when the queue is empty depends on a cycle |
| BuildOrder.TopologicalOrder | src/mountin/catalogue.py:589-609 | the order has no duplicates, places every node after all its distinct other dependencies, and holds exactly the nodes that do not depend on a cycle |
| BuildOrder.OrderIsExact | src/mountin/catalogue.py:601-609 | any sorted order after which only stuck nodes are left holds exactly the nodes that depend on no cycle |
| BuildGraph.IndexIsSettled | src/mountin/catalogue.py:523-559 | what the index leaves buildable has all its requirements met, which is what makes the walk's `KeyError` branches unreachable |
| BuildGraph.BuildGraph | src/mountin/catalogue.py:518-616 | end to end: a duplicate, a target that cannot be built, a genuine cycle, or a graph that is exactly what the targets need, without output cycles or self-requirements, in a sound order that lacks exactly what depends on an instance cycle |
| BuildGraph.CrossedWalk | src/mountin/catalogue.py:564-574 | two instances that need each other through different outputs: no path repeats an instance |
| BuildGraph.CrossedIsMissed | src/mountin/catalogue.py:564-609 | for those targets the graph is returned without error, with both nodes and an empty order |
| BuildGraph.BuildCrossed | src/mountin/catalogue.py:452-616 | from the four declarations themselves: both instances are buildable and needed, no error is raised, and the order is empty |
| BuildPlan.RequirementIsBefore | src/mountin/catalogue.py:582-609 | the instance of a buildable requirement stands strictly before its dependent in the order, with the requirement among its needed outputs |
| BuildPlan.ImageIsBefore | src/mountin/runner.py:474-508 | an image that is required is tagged by an earlier provider of the order, and is recorded in the input hash if it is that provider's first tag, the only one built |
| BuildPlan.OrderIsPlan | src/mountin/runner.py:457-499 | every graph's order is a plan the build loop can follow: providers keep apart, and each comes after the providers of what it requires, though some of its outputs may drop a requirement |
| BuildPlan.ReachedIff | src/mountin/runner.py:457-466 | the loop gets to the provider of a needed file exactly if its instance depends on no cycle |
| Transactions.FileSystem.Remove | src/mountin/runner.py:346-351 | a file, or a directory with nothing in it, goes in one step, any other directory through a half-removed state |
| Transactions.FileSystem.BeginOutput | src/mountin/runner.py:380-388 | passes through exactly the states specified, and touches the output and its backup only |
| Transactions.FileSystem.Begin | src/mountin/runner.py:376-389 | over all outputs: the states passed, the files at the end, and the backups recorded |
| Transactions.FileSystem.FinishOutput | src/mountin/runner.py:394-404 | likewise for one output's commit or roll-back |
| Transactions.FileSystem.Finish | src/mountin/runner.py:392-404 | over all outputs, for success and for failure |
| Transactions.BeginOneHolds | src/mountin/runner.py:380-388 | at every state of preparing any output, the content held at path or backup is still held, and is aside at the end |
| Transactions.FinishOneHolds | src/mountin/runner.py:394-404 | at every state of rolling back any output, the content held is still held |
| Transactions.AttemptHolds | src/mountin/runner.py:376-404 | an attempt that fails, or stops anywhere before it commits this output, leaves the content at its path or its backup |
| Transactions.NeverLost | src/mountin/runner.py:376-404 | whatever interrupted and failed attempts follow each other, the content an output had first is at its path or its backup |
| Transactions.FailedPutsBack | src/mountin/runner.py:376-404 | a failed attempt puts back what was live, or what an earlier attempt had left aside, and removes what the container wrote |
| Transactions.FailedRestores | src/mountin/runner.py:376-404 | with no backup lying about, begin, any writes and `finish(False)` restore the file system exactly |
| Transactions.SucceededCommits | src/mountin/runner.py:376-404 | a successful attempt leaves the new content and no backup |
| Transactions.StoppedInCommitKeepsNew | src/mountin/runner.py:394-400 | stopped anywhere in the commit, each output is new, with its old content still wholly or partly aside or gone |
| Transactions.AttemptKeepsFile | src/mountin/runner.py:376-404 | for file outputs, any attempt, wherever it stops, leaves the old content or the committed new one |
| Transactions.FileSurvives | src/mountin/runner.py:376-404 | over any sequence of attempts, each stopped anywhere, a file output is always recoverable: some version committed or the first |
| Transactions.WholeUnlessTorn | src/mountin/runner.py:392-404 | of an attempt that commits, wherever it stops, the old or the new content is held whole unless the backup is left half removed, which that of a file or an empty directory never is |
| Transactions.CommitHoldsIff | src/mountin/runner.py:392-404 | the old or the new content of an output is held whole at every stop of a commit if and only if the old content is a file or an empty directory: among any other outputs, at any position, any other has a stop that tears it |
| Transactions.OutputSurvives | src/mountin/runner.py:376-404 | directory or file, an output survives every sequence of attempts in which a commit is only ever stopped where what the output held before was a file or an empty directory |
| Transactions.DirectoryIsLost | src/mountin/runner.py:376-404 | for every directory that is not empty, among any other outputs: some stop of its commit, followed by any failed attempt at it, leaves neither its old content nor its new, and no backup |
| Transactions.DirectoryHalfRemoved | src/mountin/runner.py:394-400 | a stop while the backup of a directory that is not empty is being removed leaves half of it under the backup's name |
| Transactions.DirectoryCanBeLost | src/mountin/runner.py:376-404 | and a failed attempt after that puts the half back over the new directory: for directories the safety above is false |
| BuildCache.HashesDepend | src/mountin/cache.py:149-206 | the hashes handed down depend on nothing but what the providers so far can see |
| BuildCache.DigestDepends | src/mountin/cache.py:209-232 | so does the input hash of every needed output |
| BuildCache.SeenIsShown | src/mountin/cache.py:178-186 | the input hash of a provider records the present input hash of every image it requires, directly or through images required |
| BuildCache.ShownIsSeen | src/mountin/cache.py:178-186 | and it records no other image, and no other hash for one |
| BuildCache.FinishedBuildsAgree | src/mountin/runner.py:464-592 | two build directories in which every needed output, file or directory, is what its builder makes of its inputs, and that agree on what comes from outside, agree on every needed output: incremental equals from scratch |
| BuildCache.CleanIsMade | src/mountin/cache.py:235-264 | an output that is not dirty is what its builder makes of its present inputs, whichever earlier run recorded it: a file by its time stamp or content hash, a directory if it was left alone since |
| BuildCache.OnlyFilesAreChecked | src/mountin/cache.py:254-264 | that a clean output is as made, whatever lies at its path, holds if and only if a file was recorded: a directory is clean whatever is in it |
| BuildCache.StoppedIsTrusted | src/mountin/cache.py:254-256 | after a commit that was stopped anywhere, a new directory counts as the old one once the sources are put back |
| BuildCache.HalfIsTrusted | src/mountin/cache.py:254-256 | half a directory, as a stopped commit of any that was not empty and a failed attempt leave it, is clean, and not what any builder makes |
| Runner.UpToDateIsConsistent | src/mountin/runner.py:543-553 | if nothing is dirty, the cache is sound and recorded directories are intact, the build is finished |
| Runner.AgreedBase | src/mountin/cache.py:178-194 | the input hash computed from the hashes at hand, cached ones of unneeded outputs among them, is the one computed from the files alone |
| Runner.PathAgrees | src/mountin/cache.py:209-232 | an input made in this run has the same hash read off the disk, where a directory counts by its record, as handed down |
| Runner.AgreedOutputs | src/mountin/cache.py:209-232 | so the hash computed for each output, with its own requirements, is the one the specification calls for |
| Runner.StepAgrees | src/mountin/runner.py:487-496 | the hashes added after a provider are those of its outputs as they now are |
| Runner.RecordedIsSound | src/mountin/cache.py:267-297 | recording what was just made keeps the cache sound and the recorded directories intact, and makes those outputs clean |
| Runner.StepKeepsUpToDate | src/mountin/runner.py:464-592 | one provider's step leaves all earlier ones up to date |
| Runner.StepRebuilt | src/mountin/runner.py:541-549 | what a step makes is what differs, from the start of the run, in inputs, content or record: early cutoff |
| Runner.HashSeesImage | src/mountin/cache.py:178-186 | a changed image changes the input hash if and only if the image is among the provider's requirements; `runs_on` alone is not followed |
| RunsOn.SeenIsMade | src/mountin/cache.py:235-264 | if the image to run in is recorded, a clean output is what a build in the image as it now is makes, whatever catalogue and files the earlier run was of |
| RunsOn.UnseenIsMissed | src/mountin/cache.py:235-264 | if it is not, for every plan: after an edit of the image's directory the output recorded before is clean, and not what a build makes |
| RunsOn.CleanIsMadeIff | src/mountin/runner.py:541-558 | for every plan and provider: clean means made, whatever the builders, files and earlier runs, if and only if the image is among the requirements or those of an image required |
| RunsOn.StaleIsClean | src/mountin/runner.py:541-558 | a plan with a sound cache, under which nothing is dirty after the image has changed, and an output that its builder would make otherwise |
| RunsOn.RunOverStale | src/mountin/runner.py:437-595 | a run of that plan succeeds and leaves the output so |
| Runner.RightImage | src/mountin/runner.py:555-558 | an image named by `runs_on` is present, and was built from what the input hash records |
| Runner.ImageToRun | src/mountin/runner.py:505-558 | the container runs in the image its input hash calls for, whether its own or another provider's |
| Runner.MadeIsUpToDate | src/mountin/runner.py:560-584 | once the dirty outputs are made and recorded, the provider is up to date |
| Runner.AttemptProduces | src/mountin/runner.py:560-577 | a transaction that succeeds leaves exactly what the builder makes of the inputs, all else as it was |
| Runner.Engine.EnsureImage | src/mountin/runner.py:505-533 | on success the tagged image is current for these inputs; a current image is left alone unless forced; other images and all output records stay |
| Runner.Engine.MakeOutputs | src/mountin/runner.py:560-588 | on success the outputs, files or directories, are made and recorded; on failure the cache is unchanged, and without an old backup so are the files; outputs omitted by the container are a failure |
| Runner.Engine.BuildDirty | src/mountin/runner.py:541-588 | just the dirty outputs are made, in the image the input hash calls for |
| Runner.Engine.DirtyOutputs | src/mountin/runner.py:541-549 | exactly the needed outputs that are dirty, or all if forced |
| Runner.Engine.Provide | src/mountin/runner.py:464-592 | a provider's turn keeps everything before it up to date and brings it up to date; if it was, nothing is done |
| Runner.Engine.Run | src/mountin/runner.py:437-595 | from any sound cache, so after any earlier runs, success means that nothing is dirty, that exactly the outputs with changed inputs or content were made, and, recorded directories having been left alone, that every needed output, file or directory, is what its builder makes of its inputs; recorded directories stay intact, after a failure too if no backup lay about; the saved cache stays sound; run again, it does nothing |
| BlockVolume.MarkedIsFree | src/mountin/data/fs/prodos/mkprodos.py:128-134 | marking a block changes the bit of that block and of no other |
| BlockVolume.Volume.InitBitmap | src/mountin/data/fs/prodos/mkprodos.py:121-126 | just the blocks from `first_data` on are free |
| BlockVolume.Volume.AllocBlock | src/mountin/data/fs/prodos/mkprodos.py:136-141 | the lowest free block, now taken; None if and only if no block is free; nothing but the bitmap changes |
| ProDosDirectory.EntryReads | src/mountin/data/fs/prodos/mkprodos.py:224-236 | storage type, name, key and length written in an entry are read back from it |
| ProDosDirectory.DirFrame | src/mountin/data/fs/prodos/mkprodos.py:163-196 | a directory stands while its blocks are left alone and none of them becomes free |
| ProDosDirectory.PutEntry | src/mountin/data/fs/prodos/mkprodos.py:224-236 | writing one entry changes that slot of the directory and no other, across block boundaries |
| ProDosDirectory.GrowChain | src/mountin/data/fs/prodos/mkprodos.py:185-190 | a blank block linked at the end, both ways, adds empty slots and keeps every entry |
| ProDosDirectory.Directory.Grow | src/mountin/data/fs/prodos/mkprodos.py:185-190 | the chain grows by one block that was free, or there was none |
| ProDosDirectory.Directory.AllocSlot | src/mountin/data/fs/prodos/mkprodos.py:176-196 | the next slot in order and its count in the header; refused if and only if the root has its 51 entries, or a block is needed and none is free |
| ProDosDirectory.WriteFileEntry | src/mountin/data/fs/prodos/mkprodos.py:224-236 | the separate writes make the 39 bytes of the entry, and touch nothing else |
| ProDosDirectory.WriteSubdirHeader | src/mountin/data/fs/prodos/mkprodos.py:239-252 | likewise for the header of a subdirectory |
| ProDosDirectory.HeaderMakesDirectory | src/mountin/data/fs/prodos/mkprodos.py:239-252 | a block with just that header is an empty directory |
| ProDosTree.NodeFrame | src/mountin/data/fs/prodos/mkprodos.py:285-302 | a whole tree stands while none of its blocks is written or freed |
| ProDosTree.FilesAreReached | src/mountin/data/fs/prodos/mkprodos.py:329-341 | the map of paths lists a file exactly if the tree has it at that path, with that data |
| ProDos.AddChunk | src/mountin/data/fs/prodos/mkprodos.py:215-220 | one more data block and its split pointer leave the earlier ones readable |
| ProDos.WriteFileData | src/mountin/data/fs/prodos/mkprodos.py:199-221 | the data lies in freshly taken blocks, as seedling or sapling, none shared; refused only if over 128 KiB or too few blocks are free |
| ProDos.AddFile | src/mountin/data/fs/prodos/mkprodos.py:255-259 | the file is added to the directory, taking just its own cost and that of growing the chain; all else stands |
| ProDos.AddSubdir | src/mountin/data/fs/prodos/mkprodos.py:262-273 | key block, slot and header: the directory begun is empty, the parent intact with its slot still blank |
| ProDos.FileListed | src/mountin/data/fs/prodos/mkprodos.py:255-259 | blocks given to a new file are its own: disjoint from its directory's, and from all that was in use |
| ProDos.FolderListed | src/mountin/data/fs/prodos/mkprodos.py:262-282 | likewise for a new subdirectory with everything below it |
| ProDos.BuiltNext | src/mountin/data/fs/prodos/mkprodos.py:285-302 | ownership stays disjoint as nodes are added one after another, and costs add up |
| ProDos.BuildFolder | src/mountin/data/fs/prodos/mkprodos.py:295-298 | a subdirectory with all its content, its entry finalised after it has grown |
| ProDos.BuildTree | src/mountin/data/fs/prodos/mkprodos.py:285-302 | succeeds if and only if every file is small enough, the root has room and the blocks suffice; the directory then holds exactly the source tree, at exactly its cost |
| ProDosReader.ReadFile | src/mountin/data/fs/prodos/mkprodos.py:317-326 | on any volume, from any key block: the file that the index leads to, cut to its length; an error if and only if the index runs off the volume |
| ProDosReadBack.SlotMeans | src/mountin/data/fs/prodos/mkprodos.py:330-341 | on a volume as written every slot reads as the child it was written for, or as unused |
| ProDosReader.ExtractSlot | src/mountin/data/fs/prodos/mkprodos.py:331-341 | on any volume on which reading ends: one slot adds just the files it stands for; an error if and only if its name is not ASCII, or its file or directory has one |
| ProDosReader.ExtractDir | src/mountin/data/fs/prodos/mkprodos.py:307-341 | on any volume on which no chain of blocks and no nesting of directories loops: all files below the key block, later slots going before earlier ones; an error if and only if somewhere a chain or an index runs off the volume or a name is not ASCII |
| ProDosReader.ReadsOneWay | src/mountin/data/fs/prodos/mkprodos.py:307-341 | the chains and the nesting are the volume's own: there is but one way a directory can be read to its end, with one outcome |
| ProDosReadBack.HeldFile | src/mountin/data/fs/prodos/mkprodos.py:317-326 | a file as written reads back to the byte, of either storage type, empty or full |
| ProDosReadBack.TreeReadsBack | src/mountin/data/fs/prodos/mkprodos.py:329-341 | a volume that holds a tree is read to its end without an error, and gives exactly the files of the tree, under their paths |
| ProDosImage.InitVoldir | src/mountin/data/fs/prodos/mkprodos.py:144-160 | the four root blocks become an empty directory; no other block changes |
| ProDosImage.VerifyRoundtrip | src/mountin/data/fs/prodos/mkprodos.py:344-356 | on any volume on which reading ends, the check passes if and only if there is no error and just the files expected are read |
| ProDosImage.CreateImage | src/mountin/data/fs/prodos/mkprodos.py:359-366 | made if and only if the tree fits; then the check by reading back cannot fail, a block is marked used if and only if it is owned, and as many blocks are owned as the tree costs, so that none has two owners |
| ResearchUnix.DrainsFrame | src/mountin/builder/disk/research-unix/mkresearchunix.py:143-159 | the free list depends on the free blocks only: no write elsewhere disturbs it |
| ResearchUnix.DrainsOnce | src/mountin/builder/disk/research-unix/mkresearchunix.py:143-159 | what popping the free list yields is determined by the image |
| ResearchUnix.Pushed | src/mountin/builder/disk/research-unix/mkresearchunix.py:149-158 | pushing the next lower block puts it at the front of what is handed out |
| ResearchUnix.Chained | src/mountin/builder/disk/research-unix/mkresearchunix.py:150-158 | so does spilling the whole stack into that block and starting again from it |
| ResearchUnix.WriteList | src/mountin/builder/disk/research-unix/mkresearchunix.py:176-190 | a counted list written is the list loaded, of either width; other bytes stay |
| ResearchUnix.Fixture.WriteFreeBlocks | src/mountin/builder/disk/research-unix/mkresearchunix.py:143-159 | draining yields `first_free` to the end, ascending, each once, for every image size, block size and stack limit that a 16-bit count and a block can hold; blocks below are untouched and the stack fits its limit |
| ResearchUnix.Fixture.FreeInodes | src/mountin/builder/disk/research-unix/mkresearchunix.py:171-172 | the lowest inodes not in use, all of them up to a hundred |
| ResearchUnix.Fixture.WriteSuperblock | src/mountin/builder/disk/research-unix/mkresearchunix.py:162-193 | free list and free inodes read back from the superblock; the two lists and the fields around them do not overlap |
| ResearchUnixImage.HeadReads | src/mountin/builder/disk/research-unix/mkresearchunix.py:215-227 | mode and size written are read back, the 24-bit split size of V6 included |
| ResearchUnixImage.AddressesRead | src/mountin/builder/disk/research-unix/mkresearchunix.py:196-202 | the addresses written, stripped of zeros, are the blocks of the file |
| ResearchUnixImage.InodesApart | src/mountin/builder/disk/research-unix/mkresearchunix.py:205-208 | two inodes do not overlap |
| ResearchUnixImage.WriteInode | src/mountin/builder/disk/research-unix/mkresearchunix.py:205-227 | the inode reads back its node, and every other inode is unchanged |
| ResearchUnixImage.ReadBlocks | src/mountin/builder/disk/research-unix/mkresearchunix.py:282-283 | joining a node's blocks and cutting to size gives its data if and only if the blocks hold it |
| ResearchUnixImage.PlaceNodes | src/mountin/builder/disk/research-unix/mkresearchunix.py:238-250 | every node's data in consecutive blocks of its own, the rest of the image blank; refused only if something does not fit |
| ResearchUnixImage.WriteInodes | src/mountin/builder/disk/research-unix/mkresearchunix.py:253-254 | all inodes hold their nodes at once; blocks outside the inode area stay |
| ResearchUnixImage.VerifyImage | src/mountin/builder/disk/research-unix/mkresearchunix.py:275-285 | of any image: the check passes if and only if every inode says what it should and every block of data is in place |
| ResearchUnixImage.CreateImage | src/mountin/builder/disk/research-unix/mkresearchunix.py:230-257 | made if and only if everything fits (blocks, direct addresses, link counts); then the check cannot fail, and the free list on disk drains to exactly the blocks after the data |
| RsDos.GranulesApart | src/mountin/data/fs/coco-rsdos/mkrsdos.py:52-68 | granules lie inside the image, do not overlap, and miss track 17 |
| RsDos.Sizes | src/mountin/data/fs/coco-rsdos/mkrsdos.py:106-110 | sectors and bytes of the last granule give back the length exactly, for empty files and multiples of 256 too |
| RsDos.Disk.AllocGrans | src/mountin/data/fs/coco-rsdos/mkrsdos.py:96-100 | distinct free granules, as many as asked for; refused if and only if there are fewer |
| RsDos.Disk.WriteData | src/mountin/data/fs/coco-rsdos/mkrsdos.py:114-120 | each granule of the chain holds its piece; other granules are unchanged |
| RsDos.Disk.Link | src/mountin/data/fs/coco-rsdos/mkrsdos.py:122-125 | the granule map links the chain, its end saying how many sectors count |
| RsDos.FileAdded | src/mountin/data/fs/coco-rsdos/mkrsdos.py:102-127 | the disk then holds the old files and the new one, in disjoint chains |
| RsDos.AddFile | src/mountin/data/fs/coco-rsdos/mkrsdos.py:102-127 | refused if and only if the directory has 72 entries or too few granules are left |
| RsDos.Build | src/mountin/data/fs/coco-rsdos/mkrsdos.py:131-155 | map and directory are written, and no granule is touched by it |
| Chains.WholeIsUnique | src/mountin/data/fs/coco-rsdos/mkrsdos.py:180-193 | links lead but one way: there is at most one chain from a start to an end |
| Chains.WholeIsShort | src/mountin/data/fs/coco-rsdos/mkrsdos.py:186-188 | a chain that ends meets nothing twice, so it is no longer than there are numbers to link |
| Chains.NotWhole | src/mountin/data/fs/coco-rsdos/mkrsdos.py:186-188 | a path that fails, or has more links than there are numbers, is part of no chain that ends: so a loop guard of that size fires for loops only |
| RsDos.FollowChain | src/mountin/data/fs/coco-rsdos/mkrsdos.py:180-193 | of any granule map: an error if and only if the chain leaves the map or never ends, otherwise just the chain and the sectors of its last granule |
| RsDos.ReadChain | src/mountin/data/fs/coco-rsdos/mkrsdos.py:180-202 | of any image: an error if and only if the chain does not end within the map, otherwise its granules joined and cut to the length they and the entry give, a negative one included |
| RsDos.HeldIsRead | src/mountin/data/fs/coco-rsdos/mkrsdos.py:180-202 | a file as written reads as its data, exact to the byte |
| RsDos.Extract | src/mountin/data/fs/coco-rsdos/mkrsdos.py:161-203 | of any image: an error if and only if a file listed has a name that is not ASCII or a chain that does not end; otherwise every name listed, with what the last slot of that name reads as, and no other |
| RsDos.ListingIsFiles | src/mountin/data/fs/coco-rsdos/mkrsdos.py:161-203 | on a disk as written that is its files |
| RsDos.FilesAreThere | src/mountin/data/fs/coco-rsdos/mkrsdos.py:161-203 | with distinct names that map holds each file once, with its own data |
| RsDos.RoundTrip | src/mountin/data/fs/coco-rsdos/mkrsdos.py:231-239 | exactly the lists of at most 72 files and 68 granules are taken, and extracting the built image returns them |
| AtariDos.MarkUsed | src/mountin/data/fs/atari-dos/mkataridos.py:98-99 | clearing one bit takes just that sector |
| AtariDos.OnesAreFree | src/mountin/data/fs/atari-dos/mkataridos.py:101-102 | counting ones counts the free sectors |
| AtariDos.Disk.constructor | src/mountin/data/fs/atari-dos/mkataridos.py:71-91 | an empty disk: just the sectors not reserved are free, 707 or 1010 of them |
| AtariDos.Disk.Alloc | src/mountin/data/fs/atari-dos/mkataridos.py:104-109 | a free sector, now taken; None if and only if none is free |
| AtariDos.Disk.AllocChain | src/mountin/data/fs/atari-dos/mkataridos.py:123 | n distinct free sectors; refused if and only if fewer are free |
| AtariDos.Disk.WriteChain | src/mountin/data/fs/atari-dos/mkataridos.py:125-132 | every sector of the chain holds its piece, owner, link and count; the 10-bit link is not truncated; other sectors stay |
| AtariDos.FileAdded | src/mountin/data/fs/atari-dos/mkataridos.py:116-134 | the disk then holds one file more: chains, free and reserved sectors make up the whole |
| AtariDos.AddFile | src/mountin/data/fs/atari-dos/mkataridos.py:116-134 | refused if and only if there are 64 files or too few free sectors |
| AtariDos.WriteDirectory | src/mountin/data/fs/atari-dos/mkataridos.py:138-148 | all entries at their places in the eight directory sectors, other slots unused |
| AtariDos.WriteVtoc | src/mountin/data/fs/atari-dos/mkataridos.py:150-174 | both tables hold counts and bitmap, and only those sectors change |
| AtariDos.ToRaw | src/mountin/data/fs/atari-dos/mkataridos.py:176-179 | serialising leaves every file readable |
| AtariDos.ReadChain | src/mountin/data/fs/atari-dos/mkataridos.py:225-240 | of any image: an error if and only if the sectors leave the disk, belong to another file or never end; otherwise their bytes in order, counts over 128 running into the next sector |
| AtariDos.HeldIsRead | src/mountin/data/fs/atari-dos/mkataridos.py:225-240 | a file as written reads as its data; neither the owner check nor the loop guard fires |
| AtariDos.ExtractImage | src/mountin/data/fs/atari-dos/mkataridos.py:210-242 | of any image: an error if and only if a slot in use has a name that is not ASCII or sectors that do not end; otherwise what the slots in use read as, in order |
| AtariDos.ListingIsFiles | src/mountin/data/fs/atari-dos/mkataridos.py:210-242 | on a disk as written that is its files, in order, with name, extension and data |
| AtariDos.ChainsApart | src/mountin/data/fs/atari-dos/mkataridos.py:116-134 | if as many sectors are in use as the files have pieces, no two chains share one |
| AtariDos.RoundTrip | src/mountin/data/fs/atari-dos/mkataridos.py:281-288 | exactly the lists of at most 64 files that the free sectors hold are taken; they come back whole and in order, in pairwise disjoint chains clear of reserved sectors, and free plus used is what a blank disk has |
| Base64.DigitsJoin | src/mountin/bin/darwin/9d/stream64.c:109-123 | four digits join to the 24 bits they were cut from |
| Base64.EncodedIsPlain | src/mountin/bin/darwin/9d/stream64.c:45-75 | an encoded string holds no line feed, carriage return or zero byte |
| Base64.DecodeUndoesEncode | src/mountin/bin/darwin/9d/stream64.c:45-127 | `decode64(encode64(x)) = x` for every nonempty x, padding included |
| Base64.EncodeInto | src/mountin/bin/darwin/9d/stream64.c:45-75 | the loop writes just the encoding into the buffer, and returns its length |
| Base64.DecodeInto | src/mountin/bin/darwin/9d/stream64.c:93-127 | fails exactly on malformed input, never writes beyond three bytes for every four, and yields the decoding |
| ArmoredStream.Stream.Fill | src/mountin/builder/run/qemu-darwin/start-9p.py:90-103 | taking a line off the wire leaves the payload still to come as it was, and makes progress; an error only if none comes |
| ArmoredStream.Stream.ReadExact | src/mountin/builder/run/qemu-darwin/start-9p.py:105-110 | returns the next size bytes of payload, if and only if so many are to come, however the bytes arrive |
| ArmoredStream.Stream.ReadMessage | src/mountin/builder/run/qemu-darwin/start-9p.py:112-117 | returns a whole message if and only if one with a lawful size is next |
| ArmoredStream.RecordDelivers | src/mountin/builder/run/qemu-darwin/start-9p.py:96-103 | a record delivers its data whatever carriage returns the console puts around it |
| ArmoredStream.Transparent | src/mountin/builder/run/qemu-darwin/start-9p.py:80-110 | lines printed deliver exactly the data of the records among them, whatever other lines are interleaved |
| ArmoredStream.ReadAll | src/mountin/builder/run/qemu-darwin/start-9p.py:105-110 | for any chunks, noise, fragmentation and sizes, the successive results concatenate to a prefix of the payload; they stop only where too little is left |
| GuestRelay.EncodeOutput | src/mountin/bin/darwin/9d/stream64.c:209-232 | what the child writes, in chunks of any size up to 4096, is printed as records of just that data, within the line buffer |
| GuestRelay.RecordsCarry | src/mountin/bin/darwin/9d/stream64.c:209-232 | those records carry the chunks joined |
| GuestRelay.Relay.GrowRecord | src/mountin/bin/darwin/9d/stream64.c:150-160 | the buffer doubles, keeping its bytes, until the limit |
| GuestRelay.Relay.ReadRecord | src/mountin/bin/darwin/9d/stream64.c:130-163 | the next line without carriage returns; an error only if the line is longer than the limit allows |
| GuestRelay.Relay.PassOn | src/mountin/bin/darwin/9d/stream64.c:183-198 | the child receives what the record holds, or nothing if it is none |
| GuestRelay.Relay.DecodeInput | src/mountin/bin/darwin/9d/stream64.c:166-206 | over the whole input the child receives exactly what the specification says |
| GuestRelay.MessagesArrive | src/mountin/bin/darwin/9d/stream64.c:166-206 | the child receives the messages sent up to the first that no line can carry |
| GuestRelay.AllArriveIff | src/mountin/bin/darwin/9d/stream64.c:130-206 | of messages the host admits, all arrive if and only if none is over 12582909 bytes; the host admits larger ones |
| Scl.FileIsPlaced | src/mountin/lib/mountin/src/container/disk/scl.rs:75-83 | one file's sectors and catalogue entry are where the placement says |
| Scl.OthersKept | src/mountin/lib/mountin/src/container/disk/scl.rs:75-83 | earlier files are not overwritten |
| Scl.PlaceFile | src/mountin/lib/mountin/src/container/disk/scl.rs:64-87 | after each turn of the loop, all files so far are in place |
| Scl.ReconstructTrd | src/mountin/lib/mountin/src/container/disk/scl.rs:42-110 | Ok if and only if the SCL is whole and fits; then every file lies contiguously from sector 16 with its place in the catalogue, and the system sector gives counts, free sectors and first free place |
| Scl.WriteSystemSector | src/mountin/lib/mountin/src/container/disk/scl.rs:94-107 | the disk specification, leaving catalogue and files alone |
| Scl.CreateScl | src/mountin/data/disk/scl/mkscl.py:59-90 | Ok if and only if there are at most 128 files, none over 255 sectors and 2544 in all; then magic, count, entries, padded data and checksum |
| Scl.BodyIsPacked | src/mountin/data/disk/scl/mkscl.py:74-84 | whatever is packed is whole and fits, as the reader judges it |
| Scl.CatalogueReads | src/mountin/lib/mountin/src/container/disk/scl.rs:79-83 | track, sector and count in the catalogue lead to the file's data |
| Scl.PackAndReconstruct | src/mountin/lib/mountin/src/container/disk/scl.rs:42-110 | packing and reconstructing succeeds exactly for files that fit, every catalogue entry reads back its padded file, and used and free sectors make 2544 |
| ReaderStack.ReadIsRight | src/mountin/lib/mountin/src/container/disk/vmdk.rs:327-388 | every read of a readable stack of slices and sparse disks is a nonempty piece of one flat sequence, up to the end of the piece or the length asked for, and empty only at its end |
| ReaderStack.DiskRead | src/mountin/lib/mountin/src/container/disk/vmdk.rs:365-387 | a two-level look-up is a hole or a right read of the parent, cut at grain and disk end |
| ReaderStack.SliceRead | src/mountin/lib/mountin/src/container/slice.rs:25-33 | a slice of a right reader is right |
| ReaderStack.WordInOnePiece | src/mountin/lib/mountin/src/container/disk/vmdk.rs:275-285 | in stacks of aligned slices a four-byte word is never cut in two, so no table entry is |
| ReaderStack.AlignedIsSound | src/mountin/lib/mountin/src/container/disk/vmdk.rs:327-388 | aligned slices, with tables and mapped grains inside the parent, make a readable stack |
| ReaderStack.CutEntryFails | src/mountin/lib/mountin/src/container/disk/vmdk.rs:278-283 | a table entry cut by a grain or slice boundary makes the read fail |
| ReaderStack.ReadableIffSound | src/mountin/lib/mountin/src/container/disk/vmdk.rs:327-388 | of disks as opened, with the directory entries they were left with, and through all layers: a whole stack with its tables and grains inside is readable if and only if no one-byte read of any of its disks fails |
| ReaderStack.FirstTables | src/mountin/lib/mountin/src/container/disk/vmdk.rs:365-378 | a disk left with the first k entries of its directory holds what it did under the first k tables, and zeros under all others |
| ReaderStack.FillZeros | src/mountin/lib/mountin/src/container/disk/vmdk.rs:370 | zeros in just the first places of the buffer |
| ReaderStack.ReadGtEntry | src/mountin/lib/mountin/src/container/disk/vmdk.rs:275-285 | the little-endian entry, an error of the parent, or a short read |
| ReaderStack.ReadAt | src/mountin/lib/mountin/src/container/slice.rs:24-33 | filling the caller's buffer in place agrees with the value specified, through all layers, leaving its other bytes alone |
| ReaderStack.ReadDisk | src/mountin/lib/mountin/src/container/disk/vmdk.rs:327-388 | likewise for the sparse disk |
| ReaderStack.ReadAll | src/mountin/lib/mountin/src/container/mod.rs:100-117 | a readable stack yields exactly its flat sequence, or is refused if and only if that is over 1 GiB |
| VmdkHeader.OpenedIsFormed | src/mountin/lib/mountin/src/container/disk/vmdk.rs:143-220 | whatever header is accepted gives a well-formed disk in whole sectors, so that no table look-up divides by zero |
| VmdkHeader.OpenedIsFirst | src/mountin/lib/mountin/src/container/disk/vmdk.rs:182-199 | over any readable parent, what is opened is the disk the file says with the directory entries that one read returned, and no others |
| VmdkHeader.OpenedIsWhole | src/mountin/lib/mountin/src/container/disk/vmdk.rs:182-199 | over any readable parent the disk opened is the one the file says, with its whole directory, if and only if one read of the parent can return that directory |
| VmdkHeader.OpenedHolds | src/mountin/lib/mountin/src/container/disk/vmdk.rs:191-199 | the disk opened holds what the disk in the file does if and only if that has only zeros under the tables whose entries were cut off |
| VmdkHeader.OpenedReadsRight | src/mountin/lib/mountin/src/container/disk/vmdk.rs:327-388 | and every byte of it reads as the disk in the file says if and only if besides no entry of a table left is cut by the end of a grain or slice |
| VmdkHeader.HeaderOpens | src/mountin/lib/mountin/src/container/disk/vmdk.rs:143-220 | a header with grains of one sector, and its directory in sector 1, is opened on any reader that returns it |
| NestedDisks.InnerOpens | src/mountin/lib/mountin/src/container/disk/twoimg.rs:28-64 | the 2IMG header on that disk is accepted, and wraps a slice that starts off the grain |
| NestedDisks.MisalignedFails | src/mountin/lib/mountin/src/container/disk/vmdk.rs:278-283 | a file of bytes with a VMDK, a 2IMG image on it and a VMDK in that: all three are opened, all tables and grains are inside, the data is there, and every read of one of its grains fails |
| NestedDisks.DirectoryIsCut | src/mountin/lib/mountin/src/container/disk/vmdk.rs:191-199 | another such file: the innermost disk is opened without an error with 111 of its 128 directory entries, all that is left reads without an error, and a grain that is 7 in the file reads as zeros |

## Left out

What the model assumes, or states more weakly than the code could be read to promise:

- Runner.Engine.Run: hashes, time stamps and image identities are values that carry what they stand for, so equal hashes mean equal content and an unchanged stamp an unchanged file; builders are a function of the output, the hash of its inputs and the image. A directory among the inputs counts by what it was made from, as the code hashes it, so what is said of outputs supposes that recorded directories were left alone.
- Runner.Engine.Run: what becomes of each image build and container is a parameter, so it ranges over every run; the environment passed to containers is not hashed by the code and not modelled.
- BuildPlan.OrderIsPlan: takes the tags that images without one are given to be distinct, and what a provider requires to be required by at least one of its needed outputs. A requirement that each of these deletes or overrides is in no graph, though the loop still hashes it for the provider.
- Transactions.FileSurvives: outputs lie apart, none inside another and none named like another's backup.
- OutputIndex.BuildOutputIndex: the `reason` texts are not modelled; iteration orders are arbitrary sequences.
- ProDosImage.CreateImage: names are sanitised, so ASCII, and distinct; type, dates and back-links of an entry are written as the code does, but nothing more is said of them than the bytes.
- ResearchUnixImage.CreateImage: the nodes with their directory data are given; `collect_tree` and `directory_data` are not part of this model.
- RsDos.RoundTrip: names are given in 8.3 form, in ASCII without white space; the collision numbering is not part of this model.
- AtariDos.ExtractImage: takes images of the two sizes, in whole sectors; a truncated image is left out.
- ProDosReader.ExtractDir: takes volumes on which no chain of blocks and no nesting of directories loops, for on others the code does not return (so too ProDosReader.ExtractSlot and ProDosImage.VerifyRoundtrip); Python's limit on recursion is not modelled.
- AtariDos.RoundTrip: works on the raw image; the ATR header is left out.
- ArmoredStream.Stream.ReadExact: takes the host's base64 decoder to refuse whatever is not well-formed base64.
- GuestRelay.Relay.DecodeInput: reads and writes succeed, and memory suffices.
- Scl.CreateScl: the checksum is written as specified; the reconstruction ignores it.
- ReaderStack.ReadIsRight: a reader's size and offsets are unbounded numbers; the 64-bit arithmetic of the code does not wrap for disks that fit it.
- HeavyDecoder.DecodeSymbol: dropping more bits than the register holds gives None, where the code stops on overflow or wraps around, as it was compiled.

What the repository does besides:

- the DMS modes other than Deep and Heavy, the sliding windows of both, `deep_decode_position` and its tables, the reading of code lengths, checksums and track headers: bulk without a further property
- the compressed, VMDK3 and seSparse variants of VMDK, QCOW2 and the flat partition tables
- the other formatters and container readers, which have the same shape as those modelled and are easier
- compression libraries, containers, virtual machines, sockets, time-outs and downloads
- metadata merging, name sanitising, format detection, command lines and logs
- provider caches, image label migration, and the messages of `validate_path_provides`
- the `file:` prefix of requirements, and requirement names that are also instance names
