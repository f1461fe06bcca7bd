# The storage spine of nusadb, verified

A Dafny model of the parts of nusadb that decide which bytes a reader gets: the clustered B-link tree
and the slotted-page index tree of `nusadb-btree`, the page cache below them, row versions and their
visibility, and the codec of the log; and two algorithms from other crates, the SQL statement splitter
of the command line client and the names and retention of backups. Check it with
`dafny verify dfyconfig.toml`.

| files | what they model |
|---|---|
| `BLink*` | the clustered tree: page writes one at a time, readers that take no latch, splits, separators, overflow chains |
| `Key*`, `PageBytes`, `SlottedPage`, `PageOps`, `LeafPage` | the index tree: an ordered map over entries, and the bytes of its pages |
| `Cache*`, `SpillFile`, `PagedStore` | the page cache: sections between lock boundaries, eviction, spill, images |
| `VersionChain`, `Snapshot*`, `IsolationLaws`, `Mvcc*` | row versions, the reference machine of snapshot isolation, and the store that refines it |
| `Wal*` | log records |
| `Sql*` | the statement splitter |
| `Calendar`, `MomentNames`, `Backups` | backup names and retention |

The clustered tree is a class whose page store is a map, changed one page write at a time. It records
the state after every write, and the reader lemmas quantify over all such records: a reader may sit
between any two writes with copies from earlier ones. The page cache is one state changed by the
sections the source runs under one hold of its locks, in any order and by any number of threads; the
version store likewise. The index tree exists twice: as pages of bytes changed in place, with the
sequence of entries they hold, and as the tree over such pages, with the ordered map it stands for.
Integers keep the widths of the source where they are stored or compared; lengths, page sizes, header
sizes and limits are those of the source.

## Model

| member | source | states |
|---|---|---|
| `BLinkReader.ReaderNeverLost` | crates/nusadb-btree/src/tree.rs:97-139 | a descent that began at the root of any earlier moment, with any number of page writes between its reads, always has an existing tree node to read next, which starts at or below its key |
| `BLinkReader.ReaderFindsCurrentRow` | crates/nusadb-btree/src/tree.rs:122-158 | the leaf copy such a descent ends on holds, under the key, exactly the row the tree held at the moment the copy was taken |
| `BLinkReader.ScanIsAscendingAndCurrent` | crates/nusadb-btree/src/tree.rs:473-500 | a scan with page writes between its reads delivers strictly ascending row ids, and for each row id what the tree held at the moment of one of its reads |
| `BLinkChain.PiecesJoin` | crates/nusadb-btree/src/tree.rs:326-359 | cutting a value over chain pages and joining the pieces gives it back; every piece fits a page and their number is `chain_len` of the length |
| `BLinkChain.StaleStubReadsItsValue` | crates/nusadb-btree/src/tree.rs:375-432 | a reader holding a stub, however stale, reads the chain page by page and gets the value the row had when the stub was taken, after exactly `chain_len` pages |
| `BLinkChain.ReaderGetsTableValue` | crates/nusadb-btree/src/tree.rs:122-183 | a lookup of a chained row delivers the value the table had at the moment the leaf was read |
| `BLinkLookup.LookupIsAtomic` | crates/nusadb-btree/src/tree.rs:122-183 | a whole lookup, descent and chain, answers what the table held at one moment between its start and its end |
| `BLinkLookup.LookupDuringWrite` | crates/nusadb-btree/src/tree.rs:5-13 | a lookup that overlaps one write gets the exact value of every other row, and the old or the new value of the row being written |
| `BLinkNode.StubRoundTrip` | crates/nusadb-btree/src/node.rs:260-281 | decoding an encoded overflow stub gives back its prefix, total length and first page, which lie at bytes 0, 24 and 28 of its 36 |
| `BLinkNode.BinarySearch` | crates/nusadb-btree/src/tree.rs:189-208 | the position returned is where the key is or belongs in a sorted leaf |
| `BLinkNode.LeafFind` | crates/nusadb-btree/src/node.rs:214-227 | the walk over a leaf, which stops at the first larger key, finds exactly the entry a full search finds |
| `BLinkNode.Route` | crates/nusadb-btree/src/node.rs:372-380 | the loop over the separators gives the child in front of the first separator above the key |
| `BLinkPacking.PackIsTight` | crates/nusadb-btree/src/tree.rs:637-657 | next-fit packing keeps every entry in order, fits every chunk in a page, and leaves no chunk that could have taken the next entry |
| `BLinkPacking.TwoOrThree` | crates/nusadb-btree/src/tree.rs:637-657 | the leaf one insert or update overflows packs into two or three chunks, never four and never one |
| `BLinkPacking.AppendSplitsInTwo` | crates/nusadb-btree/src/tree.rs:637-657 | an entry with the largest row id never splits a leaf into three |
| `BLinkPacking.BytesDecide` | crates/nusadb-btree/src/node.rs:231-254 | the 16-bit entry count never refuses a leaf whose bytes fit |
| `BLinkSplit.SplitAllKeeps` | crates/nusadb-btree/src/tree.rs:658-691 | spreading a leaf over its new siblings keeps the tree sound, and every row |
| `BLinkSteps.SeparatorFits` | crates/nusadb-btree/src/tree.rs:744-765 | a published separator falls strictly between its neighbours in the parent |
| `BLinkSteps.InsertSlotPublishes` | crates/nusadb-btree/src/tree.rs:744-765 | publishing names the new sibling and leaves every other node named as before |
| `BLinkSteps.SplitInteriorPublishes` | crates/nusadb-btree/src/tree.rs:767-797 | each child of a split interior node is named by exactly one of its halves |
| `BLinkPublish.ChaseParent` | crates/nusadb-btree/src/tree.rs:724-742 | following right links from the recorded parent always reaches the node that names the left child |
| `BLinkPublish.SplitThenPublish` | crates/nusadb-btree/src/tree.rs:767-797 | an over-full parent splits into halves that fit, and its right half is then ready to be published one level up along the rest of the path |
| `BLinkPublish.PublishGrows` | crates/nusadb-btree/src/tree.rs:711-722 | with an empty path the left child is the root, and the grown root reaches both children |
| `BLinkTree.ClusteredTree.constructor` | crates/nusadb-btree/src/tree.rs:76-82 | a new tree is one empty leaf, sound, with an empty table |
| `BLinkTree.ClusteredTree.Descend` | crates/nusadb-btree/src/tree.rs:97-117 | ends on the leaf that owns the key, with the interior pages passed |
| `BLinkTree.ClusteredTree.Get` | crates/nusadb-btree/src/tree.rs:144-149 | the value the table has under the row id, or none |
| `BLinkTree.ClusteredTree.Scan` | crates/nusadb-btree/src/tree.rs:436-443 | every row of the table once, in ascending order of row ids |
| `BLinkTree.ClusteredTree.ScanFrom` | crates/nusadb-btree/src/tree.rs:511-567 | every row from a row id on, in ascending order |
| `BLinkTree.ClusteredTree.PublishSeparator` | crates/nusadb-btree/src/tree.rs:704-798 | names the new sibling in its parent, through parents that split since, cascading splits and root growth; every moment on the way is sound and shows the same rows |
| `BLinkTree.ClusteredTree.WriteLeafOrSplit` | crates/nusadb-btree/src/tree.rs:625-700 | the changed leaf becomes visible in one page write whether or not it splits; afterwards every sibling is published, unless a root leaf splits in three, when every row below the second chunk is lost |
| `BLinkTree.ClusteredTree.WriteChain` | crates/nusadb-btree/src/tree.rs:326-352 | a chain that reads back as the bytes, or, when a page cannot be written, the store as it was |
| `BLinkTree.ClusteredTree.MakeEntry` | crates/nusadb-btree/src/tree.rs:300-321 | an inline entry, or a stub over a new chain that holds the rest of the value; too large values are refused and failures leave no page behind |
| `BLinkTree.ClusteredTree.ChainPages` | crates/nusadb-btree/src/tree.rs:375-391 | exactly the pages of the chain, as many as the length in the stub says |
| `BLinkTree.ClusteredTree.Materialize` | crates/nusadb-btree/src/tree.rs:394-432 | the value a stub stands for |
| `BLinkTree.ClusteredTree.Insert` | crates/nusadb-btree/src/tree.rs:189-208 | the errors exactly when they apply; otherwise the table gains the row, switching in one page write for all readers, and lookups answer as the new table if and only if no root leaf splits in three; an I/O error is answered exactly when a page allocation or write failed, and a failed in-place write leaves every page as it was |
| `BLinkTree.ClusteredTree.Update` | crates/nusadb-btree/src/tree.rs:218-248 | as for an insert, for a row that is there; the pages of the old chain are handed out exactly |
| `BLinkTree.ClusteredTree.Delete` | crates/nusadb-btree/src/tree.rs:253-269 | the table loses exactly the row, in one page write; the pages of its chain are handed out |
| `BLinkTree.ClusteredTree.UpdatePrefix` | crates/nusadb-btree/src/tree.rs:275-296 | the first bytes of the value are overwritten and nothing else changes; a prefix longer than the value, or than the 24 bytes a chained value keeps inline, is refused |
| `BLinkTree.ClusteredTree.Pages` | crates/nusadb-btree/src/tree.rs:575-613 | every page once; with the pages handed out as retired, and disjoint from them, exactly the allocated pages |
| `BLinkTree.ClusteredTree.Reclaim` | crates/nusadb-btree/src/tree.rs:362-391 | freeing a retired chain changes no row and leaves the rest of the pages accounted for |
| `BLinkTree.ClusteredTree.RootWouldTriple` | crates/nusadb-btree/src/tree.rs:637-722 | a caller can tell before the call whether a root leaf would split in three |
| `BLinkTree.ClusteredTree.Run` | crates/nusadb-btree/src/tree.rs:144-296 | any run of inserts, updates, prefix updates, deletes, lookups and scans answers as one ordered map, up to the first operation that meets a failed page access or would split a root leaf in three; it stops for a failure only if there was one |
| `BLinkOps.ThreeRowsTriple` | crates/nusadb-btree/src/tree.rs:695-722 | a sound one-leaf tree with rows of 4000, 10 and 4000 bytes whose middle row grows to 8000 bytes is such a case |
| `BLinkLoss.LoseRow` | crates/nusadb-btree/src/tree.rs:695-722 | from an empty tree, three inserts and that update: all four are done unless a page access fails, and then a lookup of the first row comes back empty |
| `KeySplit.SplitPoint` | crates/nusadb-btree/src/keytree.rs:509-520 | the first index, not zero, at which the running total passes half |
| `KeySplit.HalvesFit` | crates/nusadb-btree/src/keytree.rs:509-520 | a node over its budget by one item splits into two halves that fit, whatever the sizes, with something in each and something left in the right half without its first item |
| `KeyLeaf.LeafHalvesFit` | crates/nusadb-btree/src/keytree.rs:919-947 | both halves of an overfull leaf fit a page and are not empty |
| `KeyParent.ParentHalvesFit` | crates/nusadb-btree/src/keytree.rs:984-1004 | both halves of an overfull interior page fit, with a separator left in each, so the split errors cannot be reached |
| `KeyParent.SplitParent` | crates/nusadb-btree/src/keytree.rs:984-1014 | the split of an interior page keeps every leaf and every name, and leaves one separator to place a level up |
| `KeyDepth.HalvesEven` | crates/nusadb-btree/src/keytree.rs:509-520 | both halves of a split interior page are close to even by size |
| `KeyDepth.DeepIsDear` | crates/nusadb-btree/src/keytree.rs:893-916 | a tree deeper than the depth guard accepts took more than 3 000 000 000 000 000 puts |
| `KeyTree.KeyTree.Descend` | crates/nusadb-btree/src/keytree.rs:893-916 | ends on the leaf whose range contains the target; refused exactly when the tree is deeper than 64 levels |
| `KeyTree.KeyTree.Get` | crates/nusadb-btree/src/keytree.rs:569-580 | the value the ordered map has under the position |
| `KeyTree.KeyTree.Put` | crates/nusadb-btree/src/keytree.rs:587-619 | the ordered map gains or replaces the entry, through leaf splits, interior splits and root growth; refused exactly when its encoding exceeds 2000 bytes or the tree is deeper than 64 levels |
| `KeyTree.KeyTree.Delete` | crates/nusadb-btree/src/keytree.rs:625-642 | the ordered map loses the entry, and the answer says whether it was there |
| `KeyTree.KeyTree.SplitLeaf` | crates/nusadb-btree/src/keytree.rs:919-947 | the two halves stand for the same entries, linked in both directions, and the separator is placed |
| `KeyTree.KeyTree.InsertSeparator` | crates/nusadb-btree/src/keytree.rs:951-1014 | the separator is placed, splitting upward as needed, and the tree is whole again |
| `KeyTree.KeyTree.RemoveEmptyLeaf` | crates/nusadb-btree/src/keytree.rs:650-706 | the emptied leaf and every ancestor without another child are given back; the other leaves, their links and every other page stay |
| `KeyTree.KeyTree.CollapseRoot` | crates/nusadb-btree/src/keytree.rs:709-726 | a root with one child gives way to it, as often as that holds |
| `KeyTree.KeyTree.Forward` | crates/nusadb-btree/src/keytree.rs:733-794 | delivers entries of the ordered map in ascending order, each inside the bounds by the order of keys, and none of the range is left out up to where the visitor stopped, or at all |
| `KeyTree.KeyTree.Backward` | crates/nusadb-btree/src/keytree.rs:733-794 | the same in descending order |
| `KeyScan.ResumeExact` | crates/nusadb-btree/src/keytree.rs:802-835 | stopping a scan anywhere and resuming after the last entry delivered gives exactly the uninterrupted scan |
| `KeyScan.SelectedExact` | crates/nusadb-btree/src/keytree.rs:733-835 | what a scan selects, said with the bounds and the order of keys alone: included, excluded and open bounds, or just after a position |
| `KeyOrder.KeyLessSpelled` | crates/nusadb-btree/src/keytree.rs:58-60 | keys compare as their first difference does, a missing byte being the least |
| `KeyTree.KeyTree.Pages` | crates/nusadb-btree/src/keytree.rs:846-889 | exactly the allocated pages, each once, reading only interior pages and the leftmost leaf |
| `KeyTree.KeyTree.Run` | crates/nusadb-btree/src/keytree.rs:569-726 | any run of puts, deletes and lookups answers as one ordered map on (key, row); an operation is refused only by a tree deeper than 64 levels, and none is within 3 000 000 000 000 000 puts; every run keeps the entries sorted and names every page once |
| `KeyTree.KeyTree.Do` | crates/nusadb-btree/src/keytree.rs:893-916 | one operation; refused exactly when the tree is deeper than 64 levels |
| `PageOps.InsertEntry` | crates/nusadb-btree/src/keytree.rs:207-223 | the bytes of the page hold the old entries and the new one at its place |
| `PageOps.RemoveEntry` | crates/nusadb-btree/src/keytree.rs:227-247 | the bytes hold the old entries without the one removed, and a hole at the edge of the heap is taken back |
| `PageOps.Build` | crates/nusadb-btree/src/keytree.rs:372-396 | a compact page that holds exactly the given entries, or none when they do not fit |
| `PageOps.Compact` | crates/nusadb-btree/src/keytree.rs:417-437 | the same entries with every hole squeezed out |
| `PageOps.InsertInPlace` | crates/nusadb-btree/src/keytree.rs:442-455 | true: the page holds the entries with the new one put in; false: they cannot fit, and no byte has changed |
| `SlottedPage.InsertHolds` | crates/nusadb-btree/src/keytree.rs:207-223 | after an insertion no entry overlaps another, the offsets stay below the heap and the entries above it |
| `SlottedPage.RemoveHolds` | crates/nusadb-btree/src/keytree.rs:227-247 | after a removal the other entries are where they were |
| `SlottedPage.RoomFor` | crates/nusadb-btree/src/keytree.rs:196-203 | entries that do not overlap take together no more than the room they lie in |
| `LeafPage.SearchLeaf` | crates/nusadb-btree/src/keytree.rs:154-172 | binary search over the offsets finds the position or where it belongs |
| `LeafPage.PutInPlace` | crates/nusadb-btree/src/keytree.rs:459-480 | the page holds the sequence with the entry put in or replaced, or, when it must split, is byte for byte untouched |
| `LeafPage.DeleteInPlace` | crates/nusadb-btree/src/keytree.rs:493-505 | the page holds the sequence without the entry; a page without it is untouched; the answer tells an emptied leaf |
| `LeafPage.SepInPlace` | crates/nusadb-btree/src/keytree.rs:951-983 | a separator is put in an interior page, or the page is untouched when it does not fit |
| `LeafPage.LeafLayout` | crates/nusadb-btree/src/keytree.rs:16-25 | the kind, the count, the heap mark and the entry offsets of a leaf page, and every field of each entry, lie at the bytes the documented layout gives |
| `LeafPage.InteriorLayout` | crates/nusadb-btree/src/keytree.rs:16-25 | the count, the heap mark and the offsets of an interior page, and every field of each separator, likewise |
| `SpillFile.TakeSlotOk` | crates/nusadb-btree/src/store.rs:507-550 | a page spilled takes exactly one slot no other page uses: its own if it has one, else a free one, else the next at the end |
| `SpillFile.StoredOk` | crates/nusadb-btree/src/store.rs:507-550 | a stored page is the one the slot gives back, and used and free slots still split the slots below the mark |
| `CacheThreads.AdmittedIsCurrent` | crates/nusadb-btree/src/store.rs:585-591 | a copy the directory admits is the current content of its page |
| `CacheThreads.FrameAnswers` | crates/nusadb-btree/src/store.rs:1326-1353 | what a frame in hand holds was current at some moment of the read, evicted meanwhile or not |
| `CacheClock.PickVictim` | crates/nusadb-btree/src/store.rs:1243-1281 | the sweep picks a resident frame that its policy allows, or has found every frame stuck |
| `CacheImage.QuietAccounts` | crates/nusadb-btree/src/store.rs:507-609 | in a quiet store the dirty count is the number of dirty frames plus the frees under a write since the last checkpoint, slots split exactly into used and free, the free list equals the free set, and every resident frame of a bounded cache is on the clock |
| `CacheImage.AttachKeepsContent` | crates/nusadb-btree/src/store.rs:916-937 | attaching an image that holds every live page changes no page beyond `fix` |
| `PagedStore.PagedStore.Open` | crates/nusadb-btree/src/store.rs:916-937 | a store opened on an image has the pages of the image, and every other id below the count is free |
| `PagedStore.PagedStore.Locate` | crates/nusadb-btree/src/store.rs:1089-1099 | resident, spilled or in the image, looked up under one hold of the directory |
| `PagedStore.PagedStore.ReadFrame` | crates/nusadb-btree/src/store.rs:1326-1353 | the read is answered with a value current at one of its moments |
| `PagedStore.PagedStore.Load` | crates/nusadb-btree/src/store.rs:1326-1353 | a free page is refused; otherwise the copy in hand was current at one of the moments of the read |
| `PagedStore.PagedStore.Install` | crates/nusadb-btree/src/store.rs:1114-1161 | the copy becomes resident only if it is still the latest; otherwise the read starts over |
| `PagedStore.PagedStore.CheckFrame` | crates/nusadb-btree/src/store.rs:1355-1366 | the frame is looked up again with its latch held, and the directory is free again before the page is written |
| `PagedStore.PagedStore.WriteFrame` | crates/nusadb-btree/src/store.rs:1367-1372 | the frame holds what was written, and the write is answered as done if the frame is still the one of its page, and as missed only if it is not |
| `PagedStore.PagedStore.CountFrame` | crates/nusadb-btree/src/store.rs:1367-1372 | a frame that was clean is counted after it was written |
| `PagedStore.PagedStore.WriteNew` | crates/nusadb-btree/src/store.rs:1373-1381 | a page not resident becomes a new dirty frame |
| `PagedStore.PagedStore.StartAllocate` | crates/nusadb-btree/src/store.rs:1383-1408 | the id taken is the last freed or the next new one, and no page is live under it |
| `PagedStore.PagedStore.StartFree` | crates/nusadb-btree/src/store.rs:1410-1428 | the page leaves memory and the spill; its id is on no list yet |
| `PagedStore.PagedStore.Evict` | crates/nusadb-btree/src/store.rs:1287-1318 | exactly when the frame can be taken and is clean or reaches the spill it leaves, alone, and a changed one can be read back from the spill; otherwise it stays and the reason is told |
| `PagedStore.PagedStore.MakeRoom` | crates/nusadb-btree/src/store.rs:1178-1239 | terminates, evicts frames and nothing else, and says truly why it stopped |
| `PagedStore.PagedStore.MakeImage` | crates/nusadb-btree/src/store.rs:974-1029 | pages carried over from the image where unchanged and freshly written ones otherwise are the current content of every live page, up to `fix`; unchanged pages to be carried are byte for byte those of the image |
| `PagedStore.PagedStore.Attach` | crates/nusadb-btree/src/store.rs:916-937 | the image backs the store: frames clean, spill empty, count zero, no page changed beyond `fix` |
| `PagedStore.Run` | crates/nusadb-btree/src/store.rs:1089-1428 | over any interleaving of the lock-bounded sections of reads, writes, allocations, frees, evictions, spills and checkpoints: the pages are those of a store without a cache, every read is answered with a value current during it, every reply belongs to the call of its thread that asked for it (a write to what it was given, a missed write to a page gone meanwhile, an id handed out to none live), no call is dropped, and the quiet accounts hold with their drift |
| `CacheCalls.StepJustified` | crates/nusadb-btree/src/store.rs:1326-1428 | one reply and the call it answers, from the steps of its thread alone |
| `CacheCalls.NothingDropped` | crates/nusadb-btree/src/store.rs:1326-1428 | a thread that is owed an answer is owed it for the same call after every step, or has got it |
| `PagedStore.PagedStore.ReadAlone` | crates/nusadb-btree/src/store.rs:1326-1353 | a read nobody comes between answers a live page with its content, up to `fix`, unless the image cannot be read |
| `PagedStore.PagedStore.WriteAlone` | crates/nusadb-btree/src/store.rs:1355-1381 | a write nobody comes between puts its page in place if the page is live, and changes nothing else |
| `PagedStore.PagedStore.AllocateAlone` | crates/nusadb-btree/src/store.rs:1383-1408 | an allocation nobody comes between hands out the id last given back, or the next new one, as a page of zeros |
| `PagedStore.PagedStore.FreeAlone` | crates/nusadb-btree/src/store.rs:1410-1428 | a live page given back is gone, no other is, and its id is the next to be handed out |
| `PagedStore.RunAlone` | crates/nusadb-btree/src/store.rs:1326-1428 | calls made one after the other are served as by a store without a cache |
| `PagedStore.NoDrift` | crates/nusadb-btree/src/store.rs:1355-1428 | nothing has drifted exactly when every free under a write was followed by a checkpoint |
| `PagedStore.FreedUnderWrite` | crates/nusadb-btree/src/store.rs:1355-1428 | a page freed between the check and the write of its frame leaves a quiet store with a dirty count of one and no frame |
| `PagedStore.FreedAfterWrite` | crates/nusadb-btree/src/store.rs:1355-1428 | the same two calls one after the other leave the count right |
| `VersionChain.DecodeEncode` | crates/nusadb-btree/src/mvcc.rs:66-83 | decoding an encoded row gives back its stamps and its tuple, which lie at bytes 0, 8, 16 and from 24 on |
| `VersionChain.EncodeDecode` | crates/nusadb-btree/src/mvcc.rs:66-83 | encoding what was decoded gives back the bytes; only values too short for a header are refused |
| `VersionChain.VisibleVersion` | crates/nusadb-btree/src/mvcc.rs:145-175 | the walk over the undo pointers ends and returns what the whole history shows to the view |
| `MvccReads.ReadExact` | crates/nusadb-btree/src/mvcc.rs:107-175 | the version walk under a view gives the row as committed when the view was taken, plus the own writes of its observer |
| `MvccReads.AdmitOwned` | crates/nusadb-btree/src/engine.rs:7643-7666 | the admission of a write, decided from the header of the row, is that of first-updater-wins |
| `MvccPurge.SettledBelow` | crates/nusadb-btree/src/lib.rs:25-35 | a stamp purge acts on is committed in every table anyone still reads |
| `MvccPurge.ChainUnread` | crates/nusadb-btree/src/lib.rs:25-35 | below a version everyone sees there is nothing anyone reads |
| `MvccRefine.WalkReady` | crates/nusadb-btree/src/mvcc.rs:4-17 | the undo pointers of every row lead through its whole history and never to a freed slot |
| `MvccStore.FreeChain` | crates/nusadb-btree/src/engine.rs:11497-11514 | frees exactly the slots of the chain, each once |
| `MvccStore.VersionStore.BeginTxn` | crates/nusadb-btree/src/engine.rs:8094-8134 | a transaction begins with a view of what is committed now |
| `MvccStore.VersionStore.RefreshView` | crates/nusadb-btree/src/engine.rs:8037-8074 | the step of the reference machine in which a statement comes to read what is committed by now; `RefreshReads` says what it reads |
| `MvccStore.VersionStore.CommitTxn` | crates/nusadb-btree/src/engine.rs:8145-8305 | the writes of the transaction become the next committed table |
| `MvccStore.VersionStore.AbortTxn` | crates/nusadb-btree/src/engine.rs:10978-11045 | a rollback starts, and the transaction stays active until its last write is taken back |
| `MvccStore.VersionStore.InsertTuple` | crates/nusadb-btree/src/engine.rs:9057-9113 | the new row is seen by its writer and nobody else until it commits |
| `MvccStore.VersionStore.ParkVersion` | crates/nusadb-btree/src/engine.rs:9115-9218 | an update that is admitted parks the superseded version first, and no reader can tell |
| `MvccStore.VersionStore.InstallVersion` | crates/nusadb-btree/src/engine.rs:9115-9218 | the new version replaces the parked one, for its writer only until it commits |
| `MvccStore.VersionStore.DeleteTuple` | crates/nusadb-btree/src/engine.rs:9220-9296 | an admitted deletion stamps the row, for its writer only until it commits |
| `MvccStore.VersionStore.UndoNewest` | crates/nusadb-btree/src/engine.rs:11256-11493 | taking the newest write back restores what the others and the writer saw before it |
| `MvccStore.VersionStore.ReadTuple` | crates/nusadb-btree/src/engine.rs:7623-7626 | a transaction reads its snapshot plus its own writes |
| `MvccStore.VersionStore.ReadCursor` | crates/nusadb-btree/src/engine.rs:9298-9415 | a scan reads, however late, the table as it stood for its transaction when it was opened |
| `MvccStore.VersionStore.DrainScans` | crates/nusadb-btree/src/engine.rs:2611-2636 | what open scans still have to give no longer comes from the store |
| `MvccStore.VersionStore.TakeSnapshot` | crates/nusadb-btree/src/engine.rs:11556-11572 | what a purge pass judges by, however late it runs: exactly the stamps every open view sees |
| `MvccStore.VersionStore.PurgeOne` | crates/nusadb-btree/src/engine.rs:11598-11748 | reclaiming the history of a row, or a deleted row, changes no read of anyone |
| `MvccStore.VersionStore.PurgeQueue` | crates/nusadb-btree/src/engine.rs:11749-11768 | the slots of undone updates are recycled once no reader can be on the way to them |
| `MvccStore.Run` | crates/nusadb-btree/src/mvcc.rs:4-17 | any interleaving of begin, statement, insert, update, delete, rollback, commit, scan and purge steps, with arena slots recycled, answers exactly as snapshot isolation with first-updater-wins |
| `SnapshotLaws.NoLostUpdate` | crates/nusadb-btree/src/lib.rs:757-783 | in any run, while a transaction has a write on a row, the row it read is still the latest committed one and nobody else has written it |
| `SnapshotLaws.SnapshotIsStable` | crates/nusadb-btree/src/mvcc.rs:4-17 | whatever the others do, a transaction reads the same value of every row until it moves itself |
| `MvccSteps.SnapshotSettles` | crates/nusadb-btree/src/engine.rs:11556-11572 | a purge pass may act on exactly the stamps of ended transactions that every pinned and scanning view sees |
| `IsolationLaws.Taken` | crates/nusadb-btree/src/engine.rs:8037-8355 | a command of a transaction that is not running is unknown, one that would disturb its own update under way is told to wait, and every other is taken |
| `IsolationLaws.WritesTaken` | crates/nusadb-btree/src/engine.rs:9057-9415 | the same for inserts, updates, deletions and reads |
| `IsolationLaws.NothingCommitted` | crates/nusadb-btree/src/mvcc.rs:4-17 | a transaction begun on the empty store reads no row |
| `IsolationLaws.CommitPublishes` | crates/nusadb-btree/src/engine.rs:8145-8305 | what a transaction begun right after a commit reads is what the committed one read of the rows it wrote, and of all other rows what it would have read before |
| `IsolationLaws.OnlyCommitsPublish` | crates/nusadb-btree/src/mvcc.rs:4-17 | no other command changes what a transaction begun now reads |
| `IsolationLaws.RefreshReads` | crates/nusadb-btree/src/engine.rs:8037-8058 | after a new statement a transaction reads its own writes, and of every other row what a transaction begun then reads |
| `IsolationLaws.InsertReads` | crates/nusadb-btree/src/engine.rs:9057-9113 | an insert is read by its transaction, which reads all else as before |
| `IsolationLaws.InsertIsNew` | crates/nusadb-btree/src/engine.rs:9057-9113 | no running transaction read a value under that row before |
| `IsolationLaws.InstallReads` | crates/nusadb-btree/src/engine.rs:9115-9218 | an installed update is read by its transaction, which reads all else as before |
| `IsolationLaws.UpdateStaysUnderWay` | crates/nusadb-btree/src/engine.rs:9115-9218 | an update stays under way, whatever the others do, until it is installed |
| `IsolationLaws.DeleteReads` | crates/nusadb-btree/src/engine.rs:9220-9296 | a deletion is read by its transaction, which reads all else as before |
| `IsolationLaws.StepBackReads` | crates/nusadb-btree/src/engine.rs:11256-11493 | taking the newest write back restores every read of its transaction |
| `IsolationLaws.OthersReadOn` | crates/nusadb-btree/src/mvcc.rs:4-17 | no other command changes what a transaction reads |
| `IsolationLaws.ConflictIff` | crates/nusadb-btree/src/engine.rs:7643-7666 | a write is refused exactly when somebody else holds the row uncommitted, or committed a write of it after the writer took its snapshot and the writer has not written it itself; else it is taken exactly when the writer reads a value there |
| `IsolationLaws.ScanReads` | crates/nusadb-btree/src/engine.rs:9298-9415 | a scan reads what its transaction read when it was opened, whatever was done since, until it ends |
| `IsolationLaws.EndedForGood` | crates/nusadb-btree/src/engine.rs:8094-8134 | a transaction that has ended stays unknown, and its id is not handed out again |
| `WalRecord.RoundTrip` | crates/nusadb-btree/src/wal.rs:499-1015 | decoding the record of any operation whose lengths fit their fields gives the operation back |
| `WalRecord.RecordsDiffer` | crates/nusadb-btree/src/wal.rs:499-751 | no two such operations share a record |
| `WalEncode.Encode` | crates/nusadb-btree/src/wal.rs:499-751 | the encoder that appends field by field gives the record the format defines, for every operation |
| `WalEncode.PushKey` | crates/nusadb-btree/src/wal.rs:1018-1025 | a key is its tag, then transaction, object and row in eight little-endian bytes each |
| `WalEncode.AppendTable` | crates/nusadb-btree/src/wal.rs:1166-1176 | appending a table definition column by column gives its format |
| `WalEncode.AppendIndex` | crates/nusadb-btree/src/wal.rs:1390-1424 | the same for an index definition |
| `WalEncode.AppendStats` | crates/nusadb-btree/src/wal.rs:1571-1594 | the same for table statistics |
| `WalEncode.AppendSequence` | crates/nusadb-btree/src/wal.rs:1648-1655 | the same for a sequence definition |
| `WalEncode.AppendLock` | crates/nusadb-btree/src/wal.rs:1073-1103 | the same for a prepared lock |
| `WalEncode.EncodeFk` | crates/nusadb-btree/src/wal.rs:499-751 | the same for a foreign key |
| `Bytes.ByteOf` | crates/nusadb-btree/src/wal.rs:1018-1029 | integers are stored least significant byte first |
| `WalRecord.OldRecords` | crates/nusadb-btree/src/wal.rs:1390-1489 | a unique constraint without its last flag decodes with nulls distinct, an index definition without the later fields decodes with no expressions and no predicate, and all else as written |
| `WalRecord.InsertBatchRecord` | crates/nusadb-btree/src/wal.rs:1050-1070 | the borrowed encoder of a batch gives the record of the owned operation, byte for byte, whatever the lengths |
| `WalRecord.DecodeBatch` | crates/nusadb-btree/src/wal.rs:774-797 | the cursor loop over a batch value returns what the definition of its format says |
| `WalRecord.BatchRound` | crates/nusadb-btree/src/wal.rs:1050-1070 | the value of a batch decodes to its rows |
| `WalRecord.BatchIsExact` | crates/nusadb-btree/src/wal.rs:774-797 | a batch value that decodes stops decoding when anything is appended or cut off |
| `WalRecord.BatchPrefixesFail` | crates/nusadb-btree/src/wal.rs:774-797 | no strict prefix and no extension of the value of a batch decodes |
| `WalRecord.MarkerIsExact` | crates/nusadb-btree/src/wal.rs:1034-1043 | the test by key alone finds exactly the records that prepare a transaction, and names it |
| `WalRecord.KeyRound` | crates/nusadb-btree/src/wal.rs:1018-1029 | a key gives back its tag, transaction, object and row |
| `WalDefs.TypeRound` | crates/nusadb-btree/src/wal.rs:1209-1387 | a column type reads back as it was written, whatever follows it |
| `WalDefs.TableRound` | crates/nusadb-btree/src/wal.rs:1166-1207 | so does a table definition |
| `WalDefs.IndexRound` | crates/nusadb-btree/src/wal.rs:1390-1489 | so does an index definition, also one without the fields added later |
| `WalDefs.StatsRound` | crates/nusadb-btree/src/wal.rs:1571-1641 | so do table statistics |
| `WalDefs.SequenceRound` | crates/nusadb-btree/src/wal.rs:1648-1677 | so does a sequence definition |
| `WalRecord.PreparedRound` | crates/nusadb-btree/src/wal.rs:1073-1139 | so does a prepared transaction with its locks |
| `SqlScanner.DelimiterAt` | crates/nusadb-cli/src/lib.rs:656-675 | the loop finds exactly the dollar-quote delimiter that begins at a position |
| `SqlScanner.CopyComment` | crates/nusadb-cli/src/lib.rs:701-738 | copies exactly the comment that starts at a position, nested or to the end of its line, and tells whether it was closed |
| `SqlScanner.ScanStatements` | crates/nusadb-cli/src/lib.rs:743-848 | the loop returns the statements of the text and whether it is complete, as the automaton over quotes, dollar bodies and comments defines them |
| `SqlSplit.SplitConcat` | crates/nusadb-cli/src/lib.rs:686-688 | splitting `a;b` is splitting `a`, then `b`, when `a` ends outside every quote, dollar body and comment |
| `SqlSplit.ComposesIff` | crates/nusadb-cli/src/lib.rs:686-848 | that holds for every `b` exactly when `a` ends outside them |
| `SqlSplit.SplitUncut` | crates/nusadb-cli/src/lib.rs:743-848 | a text in which no semicolon stands outside is one statement, trimmed, or none |
| `SqlSplit.StatementWhole` | crates/nusadb-cli/src/lib.rs:686-688 | splitting any returned statement returns just that statement, which is not empty and has no white space at its ends |
| `SqlLaws.SplitTrimmed` | crates/nusadb-cli/src/lib.rs:743-848 | white space around a text does not change its statements |
| `SqlSplit.SplitRound` | crates/nusadb-cli/src/lib.rs:686-688 | the returned statements, joined again, split into the same statements |
| `SqlSplit.CompleteIff` | crates/nusadb-cli/src/lib.rs:899-901 | input is complete exactly when some semicolon outside every quote, dollar body and comment has only white space and closed comments behind it |
| `SqlTokens.StringToken` | crates/nusadb-cli/src/lib.rs:787-807 | a quote opens a string that stays open while every quote in it is doubled or escaped, and the next quote closes it |
| `SqlTokens.EscapeDecides` | crates/nusadb-cli/src/lib.rs:692-696 | a backslash keeps a quote from closing exactly when the string opened behind an `e` or `E` that ends no longer word |
| `SqlTokens.BodyOrEnd` | crates/nusadb-cli/src/lib.rs:787-807 | every text behind an opening quote stays inside, closes at a quote that is not doubled, or ends in a lone backslash |
| `SqlTokens.IdentifierToken` | crates/nusadb-cli/src/lib.rs:808-817 | a double quote opens an identifier, without escapes, in the same way |
| `SqlTokens.DollarToken` | crates/nusadb-cli/src/lib.rs:656-675 | `$tag$` opens a body that runs to the first `$tag$`, whatever else it holds |
| `SqlTokens.NoDollarToken` | crates/nusadb-cli/src/lib.rs:651-675 | a dollar sign without tag and second dollar sign, or with a number, opens nothing |
| `SqlTokens.LineToken` | crates/nusadb-cli/src/lib.rs:701-713 | two dashes open a comment to the end of the line |
| `SqlTokens.BlockToken` | crates/nusadb-cli/src/lib.rs:714-735 | comments between slash and star nest: open while more were opened than closed |
| `SqlTokens.InsideOrClosed` | crates/nusadb-cli/src/lib.rs:714-735 | every text behind an opened comment stays inside or closes it somewhere |
| `SqlTokens.PlainToken` | crates/nusadb-cli/src/lib.rs:837-840 | no other character opens or closes anything |
| `SqlTokens.WhiteSpace` | crates/nusadb-cli/src/lib.rs:782-785 | white space is the Unicode property |
| `SqlCode.QuoteIsCode` | crates/nusadb-cli/src/lib.rs:782-785 | a text with a quote outside comments is a statement |
| `SqlCode.DollarIsCode` | crates/nusadb-cli/src/lib.rs:818-827 | so is one with a dollar body |
| `SqlCode.PlainIsCode` | crates/nusadb-cli/src/lib.rs:782-785 | any other character makes one exactly if it is neither white space nor a semicolon |
| `SqlCode.LineIsNoCode` | crates/nusadb-cli/src/lib.rs:701-713 | a comment to the end of the line does not |
| `SqlCode.BlockIsNoCode` | crates/nusadb-cli/src/lib.rs:714-735 | nor does one between slash and star, closed or not |
| `Calendar.CountsBack` | crates/nusadb-server/src/backup.rs:98-117 | the date computed for a day number is on the Gregorian calendar, and counting years, months and days up to it gives the number back, for every number |
| `Calendar.Inverts` | crates/nusadb-server/src/backup.rs:98-117 | every calendar date from 1970 on is the one computed for its day number |
| `Calendar.EraDivided` | crates/nusadb-server/src/backup.rs:103-107 | the four divisions find the year of a 400-year era exactly, and the day in it, leap days included |
| `MomentNames.NamesReadBack` | crates/nusadb-server/src/backup.rs:98-117 | the digits of a name spell the moment it was made from, in every year |
| `MomentNames.NamesIncrease` | crates/nusadb-server/src/backup.rs:98-117 | names strictly increase with time through the year 9999 |
| `MomentNames.NamesSort` | crates/nusadb-server/src/backup.rs:98-117 | so names compare as their moments do |
| `MomentNames.FiveDigitsSortFirst` | crates/nusadb-server/src/backup.rs:98-117 | the first name of the year 10000 sorts before the last of 9999 |
| `MomentNames.Recognized` | crates/nusadb-server/src/backup.rs:120-128 | a moment's name is recognized as a backup's exactly before the year 10000 |
| `Backups.KeepsNewest` | crates/nusadb-server/src/backup.rs:254-267 | every moment whose backup is removed is before every moment whose backup is kept |
| `Backups.CompleteSpelled` | crates/nusadb-server/src/backup.rs:120-128 | a complete backup is an entry with a manifest whose name is eight digits, a `T`, six digits and a `Z` |
| `MomentNames.LessSpelled` | crates/nusadb-server/src/backup.rs:260-260 | names compare as their first difference does |
| `Backups.BackupDir.ApplyRetention` | crates/nusadb-server/src/backup.rs:254-267 | removes exactly the complete backups with at least `keep` later ones, or one if `keep` is zero, so the newest `keep` are left, and touches nothing else; a backup that cannot be removed stops it with only older ones gone |
| `Backups.BackupDir.RunBackup` | crates/nusadb-server/src/backup.rs:136-156 | the backup gets the first free moment from now on, which is always found; then the retention applies |
| `Backups.NewBackupStays` | crates/nusadb-server/src/backup.rs:136-156 | the new backup outlives that retention exactly when fewer than `keep` complete backups have later names (no one, if `keep` is zero), or its own is no longer recognized |

## Findings

What the source does that its own documentation would not lead one to expect. Each is kept in
the model as the source has it, with the input that shows it and the exact condition under which it
does not happen.

| what | where | shown by | exact condition |
|---|---|---|---|
| A root leaf that splits in three loses the rows of its first chunk: each separator is published with the empty path, and the second publish grows a root over the second and third chunk only. Rows of 4000, 10 and 4000 bytes whose middle one is updated to 8000 do it. | crates/nusadb-btree/src/tree.rs:695-722 | `BLinkLoss.LoseRow`, `BLinkOps.ThreeRowsTriple` | `ClusteredTree.Insert` and `Update`: a call that is done leaves every lookup right if and only if the leaf was not a root that had to split in three, which `RootWouldTriple` decides beforehand |
| The dirty count of the page cache can stay above the number of dirty frames: a page freed between the check that its frame is registered and the marking of the frame takes a clean frame away uncounted, and the write then counts it. | crates/nusadb-btree/src/store.rs:1355-1428 | `PagedStore.FreedUnderWrite` | `QuietAccounts`, `Run` and `NoDrift`: the count is exact if and only if no page was freed with such a write on it since the last checkpoint; only the count is affected, no page content |
| `a;b` does not split as `a` and `b` when `a` ends in a line comment without its newline, which the documentation of the splitter does not say: the comment takes the semicolon. | crates/nusadb-cli/src/lib.rs:701-738 | `SqlSplit.NoCut` | `SqlSplit.ComposesIff`: every `b` splits off exactly when `a` ends outside every quote, dollar body and comment |
| From the year 10000 on a backup's name sorts before older ones and is no longer recognized, so retention never counts or removes it. | crates/nusadb-server/src/backup.rs:98-128 | `MomentNames.FiveDigitsSortFirst` | `MomentNames.Recognized`: recognized if and only if the moment is before the year 10000 |
| A backup taken after the clock was set back can be removed by the retention of its own run. | crates/nusadb-server/src/backup.rs:136-156 | `Backups.NewBackupStays` | it stays if and only if fewer than `max(keep, 1)` complete backups have later names (or its own name is not recognized) |

Where code and documentation differ the model follows the code: `is_complete_statement` is documented
as looking at the last character that is not white space, and accepts comments behind the semicolon;
a transaction that reads what is committed takes its view per statement, not per read.

## Left out

- The engine around the version store (table and row locks beyond the admission of writes, serializable validation, index entries, DDL, several tables, replay, group commit, the checkpoint writer): each needs the log and the catalog, which are not modelled together with the rows.
- Failures of memory allocation, poisoned locks, fsync and rename: steps either happen or return the error the source returns.
- Encryption, checksums and compression of pages and spill slots: foreign primitives, taken as the identity.
- Byte layout of the clustered tree's pages (`node.rs` besides stubs, sizes, search and routing): nodes are values with the sizes of the source; the layout would repeat what `LeafPage` does for the index tree.
- `PagedStore::with_page` and `modify_page`: their sections are those of a read and of a write of a resident frame.
- `detach`, `reattach` and `trim` of an image, sealed spill files: only move file handles.
- `MemPageStore`, `format.rs`, `crypt.rs`, the client library and the REPL around the splitter: would only add easy members.
- `prune_archives`, `remove_partials` and the copying of databases in a backup: file handling; whether the copy succeeds is a parameter.
- A bound on the frames a cache may hold: the source lets the sweep limit and the retries exceed the capacity.
- BLinkTree.ClusteredTree.Run: stops at the first failed page write, since the source leaves a half-published split there; what such a failure can leave is stated on the operations.
- BLinkTree.ClusteredTree.Insert: running out of page ids is an I/O failure; ids and keys are below the reserved largest key, as the source requires.
- BLinkReader.ScanIsAscendingAndCurrent: a scan as a whole is not one moment, as in the source.
- KeyTree.KeyTree.Forward: the visitor's decision to stop is arbitrary at each entry; page faults are not modelled.
- KeyTree.KeyTree.Run: page reads and writes do not fail, so the state after a failed split is not described.
- PagedStore.Run: reads and writes may name any page id at any time, but only allocated pages are freed, each once; what freeing a page twice would do is not described.
- MvccStore.Run: runs have fewer than 2^64 - 2 steps, the number of transaction ids and arena slots the source can name; one table.
- WalRecord.RoundTrip: operations whose strings or lists are longer than a 32-bit length are left out, since the source writes a saturated length and cannot read it back.
- SqlTokens.StringToken: stated where the text before does not run into the token (a quote right behind a closing one continues the string, a dash behind a dash begins a comment); the other token laws likewise.
- WalRecord.FromRecord: the cursor of the source's decoders is the rest of the bytes, and its loops are recursion on it, but for the batch, which has its loop.
- SqlScanner.ScanStatements: of the letters and digits of Unicode only this is used, that no white space and no semicolon is one; the flags of the source's loop are one record passed between the methods of its branches.
- Backups.BackupDir.ApplyRetention: the listing order and which directories cannot be removed are arbitrary; a directory is removed whole or not at all.
- MomentNames.MomentName: seconds are any natural number; every 64-bit second count is one, and none reaches the saturating conversion of the source.
