# Verified model of the rakaia and silo server core

A Dafny model of the parts of the repository that carry its hard logic, with proofs. Check it with
`dafny verify dfyconfig.toml`.

Five components are modelled, each in the form of its source: code that changes memory step by step
is a class or a method with loops, concurrent code is a state machine whose steps are the atomic
operations, pure code is a function.

- **Silo B+-tree** (`Varkey`, `BtreeModel`, `BtreeRuns`, `BtreeLeaf`, `BtreeKids`, `BtreeInsert`,
  `BtreeRemove`, `Btree`): a map from byte strings to values. Each layer is a B+-tree over 8-byte
  slices; a clash of longer keys turns a slot into a layer. Insertion and removal are proved to
  refine a finite map and to keep the tree invariant, for every sequence of operations. `BtreeArrays`,
  `BtreeSearch`, `BtreeLeafNode`, `BtreeLeafOps` and `BtreeInternalNode` are the searches and the node
  edits on arrays in place, proved equal to the value-level functions. `BtreeLeafList` is the doubly
  linked list of leaves in memory; `BtreeLinks` and `BtreeThread` tie it to the tree: after every insert
  and removal the links thread exactly the leaves of the layer. `VersionWord` is the optimistic version
  protocol of one node.
- **Thread-pool server**: `JobRing` (ticketed ring with semaphore), `PoolConn` (ownership hand-off,
  inbox, response order, reference counts), `PoolWatch`, `PoolPair` and `PoolLife` (when a
  completion is left behind, when a connection is freed in use or never freed; `PoolSteps` and `PoolRuns`
  are pieces of runs), `PoolHistory` (what was sent against what the run read), `PoolParser` (resumable
  request parser).
- **Rakaia scheduler**: `SchedulerSteps` (lock-level interleavings), `SchedulerDuty` (which socket gets
  which message), `SchedulerRace` and
  `SchedulerWindow` (when they lose work conservation, and when not), `Scheduler` (whole operations),
  `WaiterList`.
- **Stream parser and HTTP/2 demultiplexer**: `Framing` (reference parse and receiver for any length
  function), `StreamParser` (the receive loop and the memcached length), `Http2`. `MemcachedWire` and
  `Http2Wire` encode requests and frames as bytes, and say what kernel and server make of them.
- **Arena allocator**: `Allocator` (sizes, layout, carving, conservation), `AllocatorLists` (free lists as
  links in memory, sorting and splicing), `AllocatorHeap` (the allocator as an object),
  `AllocatorPages` (mapped pages).

## Where the code falls short of a property

Each of these is proved: the condition under which the property holds and, where one is named, a
run or input that breaks it.

- The job ring delivers correctly on all runs if and only if it has at least two cells
  (`JobRing.RingDeliversIff`): with one cell the sequence number of a free cell and of a full one
  coincide. The server uses a large power of two.
- Framing is independent of segmentation if and only if no SET in the stream announces a body within
  27 bytes of 2^32 (`StreamParser.SegmentationFreeIff`): the 32-bit sum wraps to a length below the
  header size.
- Window updates are legal on all runs if and only if the connection window is at least 4
  (`Http2.AlwaysLegalIff`): below that an empty DATA frame is acknowledged with increment 0.
- Whole scheduler operations conserve work (`Scheduler.Sched.Push`, `Scheduler.Sched.Pull`).
  Interleaved lock-level steps do if and only if no pull finds the bitmap empty while a push is about to
  set a bit (`SchedulerWindow.StepConservesIff`, `SchedulerWindow.RunConservesIff`), because the queue's
  bit is set after the waiters lock is released. With at least one socket and two threads some run
  strands a message (`SchedulerRace.MessageStranded`, `SchedulerWindow.NeverStrandsIff`).
- A checked optimistic read that missed fewer than 2^55 version changes saw no modifying section, and the
  node is as it was loaded if and only if nobody stored into it outside of one
  (`VersionWord.CheckedReadIsStable`). Value overwrites, layer root updates and `prev_` are stored that
  way, under the lock of the node or of its neighbour (`VersionWord.QuietWriteGoesUnnoticed`). With a full
  turn of the version even a modifying section is missed (`VersionWord.FullTurnGoesUnnoticed`).
- `insert_info` names the published version if and only if the version does not overflow
  (`VersionWord.InfoIsPublished`).
- The pool server enqueues every complete request it receives if and only if the end of the stream is not
  reported in a filling of the buffer that holds a complete request (`PoolParser.Conn.ProcessReads`); such
  a filling loses what it has read (`PoolParser.DropsRequest`).
- A connection of the pool server can lose its last reference while a thread is at work on it if and only if
  there is a single I/O thread and another thread (`PoolLife.FreedInUseIff`, `PoolLife.FreedUnderWorker`).
- A connection closed by a worker keeps its accept reference for ever (`PoolLife.LeakedForever`); this can
  happen if and only if there are both I/O threads and workers (`PoolLife.LeakIff`).
- The pending flag and EPOLLOUT watch over every completion in the inbox if and only if there are at most
  two threads or threads of one kind only (`PoolLife.NeverLeavesIff`). With more, the last thread to know
  can turn away (`PoolWatch.StepWatchedIff`), and the completion waits for the next event
  (`PoolWatch.UnwatchedStays`).
- The increment of a received WINDOW_UPDATE comes from that frame alone if and only if the payload has four
  bytes or the stream is not 0 (`Http2.UpdateStandsAloneIff`).
- The pages `AllocateUnmanaged` hands out are all mapped if and only if the region was faulted or at most
  one page was asked for (`AllocatorPages.Region.AllocateUnmanaged`).
- `ArenaSize` gives a usable arena if and only if the size is 1 to 512 (`Allocator.ArenaSizeFits`);
  size 0 gives index SIZE_MAX.
- Server and kernel cut a well-formed request at the same place if and only if its length fits an int
  (`PoolParser.SameBoundary`).

Where code and comment disagree the model follows the code. The comment at `btree_impl.h` lines
1191-1193 doubts an assertion; `BtreeInsert.PositionAtMostSplitPoint` proves it. The one doubted at lines
717-720 is never reached (`BtreeLeafList.LeaveDeleted`).

## Model

| member | source | states |
|---|---|---|
| `Btree.TreeIsMap` | bench/servers/silo/btree_impl.h:232-1997 | Any sequence of search, insert, insert_if_absent and remove on a new tree, with keys of any length, returns exactly what a finite map returns: found or not, whether the key was new, and the value it had. |
| `Btree.RunRefines` | bench/servers/silo/btree_impl.h:232-1997 | The same from any tree that represents a map, for any sequence of operations. |
| `Btree.ApplyRefines` | bench/servers/silo/btree_impl.h:232-1997 | One operation takes a tree that represents m to a tree that represents m after the map operation, with the same return values. |
| `Btree.InsertStep` | bench/servers/silo/btree_impl.h:1354-1405 | Inserting at the root, root growth included, keeps the tree invariant, reports whether the key was absent and its old value, and changes the lookup of that key only. |
| `Btree.RemoveStep` | bench/servers/silo/btree_impl.h:569-615 | Removing at the root, root replacement included, keeps the invariant, reports the removed value, and changes the lookup of that key only. |
| `Btree.Tree.constructor` | bench/servers/silo/btree_impl.h:108-113 | A new tree holds nothing. |
| `Btree.Tree.Search` | bench/servers/silo/btree_impl.h:232-354 | The search loop over internal nodes, leaves and layers finds exactly the stored value, or nothing when the key is not stored. |
| `Btree.Tree.Insert` | bench/servers/silo/btree_impl.h:1354-1405 | Returns true exactly when the key was absent; afterwards the contents are the old map with the key bound (unchanged for insert_if_absent on a present key). |
| `Btree.Tree.Remove` | bench/servers/silo/btree_impl.h:569-615 | Returns true exactly when the key was present; afterwards the contents are the old map without the key. |
| `Btree.DescendStep` | bench/servers/silo/btree_impl.h:337-354 | The child chosen by an internal node is responsible for the key and decides the lookup. |
| `Btree.LeafStep` | bench/servers/silo/btree_impl.h:263-302 | A leaf decides the lookup by its slot of the same slice and length: suffix comparison, or descent into the layer with the key shifted by eight bytes. |
| `Varkey.BigEndianInjective` | bench/servers/silo/varkey.h:91-99 | Slices of equally long byte strings differ when the bytes differ. |
| `Varkey.RankDecidesPrefix` | bench/servers/silo/varkey.h:91-112 | Slice and slice length together determine a key of up to eight bytes, the first eight bytes of a longer one, and with the suffix the whole key. |
| `Varkey.BigEndianOrder` | bench/servers/silo/varkey.h:91-99 | Slices compare like the bytes they are made of. |
| `Varkey.RankFollowsBytes` | bench/servers/silo/varkey.h:65-112 | Comparing slice and slice length, and what follows the first eight bytes when these are equal and the key goes on, is comparing the byte strings. |
| `BtreeModel.AtIsMembership` | bench/servers/silo/btree_impl.h:62-107 | In a strictly sorted leaf the slot found at a rank is the only one of that rank. |
| `BtreeModel.ChildIdxUnique` | bench/servers/silo/btree.h:983-1004 | Ascending separators have exactly one child responsible for a slice. |
| `BtreeInsert.SplitPointProper` | bench/servers/silo/btree_impl.h:1121-1146 | The split point of a full leaf is always in 1..14 and never falls inside a run of equal slices. |
| `BtreeInsert.PositionAtMostSplitPoint` | bench/servers/silo/btree_impl.h:1148-1193 | The assertion the authors were unsure of holds: when the new slot does not go right, its position is at most the split point. |
| `BtreeInsert.CutWithCorrect` | bench/servers/silo/btree_impl.h:1148-1229 | Whichever side takes the new slot, the two halves are together the grown leaf, neither is empty or overfull, and they share no slice. |
| `BtreeInsert.SplitLeafCorrect` | bench/servers/silo/btree_impl.h:1076-1229 | A leaf split, the append-to-the-right special case included, loses nothing, empties and overfills no half, and separates the halves by slice. |
| `BtreeInsert.PutInInternalCut` | bench/servers/silo/btree_impl.h:1283-1349 | The three cases of an internal split all cut the grown separator and child arrays at the same place. |
| `BtreeInsert.NewLayerTakesKey` | bench/servers/silo/btree_impl.h:929-982 | When two different suffixes clash, inserting the new key into the fresh layer always adds it, so the status checked at line 978 is the only one possible. |
| `BtreeInsert.NewLayerHolds` | bench/servers/silo/btree_impl.h:945-966 | The one-slot layer made from an old slot answers every lookup as the slot did. |
| `BtreeInsert.RootedCorrect` | bench/servers/silo/btree_impl.h:884-925 | Putting the halves of a split layer root under a new root gives a well-formed layer with the same lookups. |
| `BtreeInsert.InsertPreserves` | bench/servers/silo/btree_impl.h:814-1352 | Insertion keeps the whole tree invariant: sorted unique slots, key ranges, fill of non-root nodes, equal heights, in every layer, and hands up halves in adjacent ranges when it splits. |
| `BtreeInsert.InsertRefines` | bench/servers/silo/btree_impl.h:814-1352 | For every key k2, the lookup of k2 after inserting k is that of the updated map; the status says whether k was bound and to what. |
| `BtreeRemove.RemovePreserves` | bench/servers/silo/btree_impl.h:1412-1997 | Every removal, steal, merge and root replacement at leaf and internal level keeps the tree invariant, with the siblings it touches. |
| `BtreeRemove.RemoveRefines` | bench/servers/silo/btree_impl.h:1412-1997 | For every key k2, the lookup of k2 over the node and its siblings after removing k is that of the map without k. |
| `BtreeRemove.LeafRemoveOk` | bench/servers/silo/btree_impl.h:1520-1819 | Removal from a leaf, with the four preferences (steal right, merge right, steal left, merge left) and the underfull case, keeps leaf and siblings well formed and filled. |
| `BtreeRemove.LeafRemoveRefines` | bench/servers/silo/btree_impl.h:1520-1819 | Removal from a leaf finds, over leaf and siblings, exactly the remaining slots. |
| `BtreeRemove.RebalanceOk` | bench/servers/silo/btree_impl.h:1888-1990 | An internal node that lost a child is refilled, merged or replaced without breaking ranges, fill or height. |
| `BtreeRemove.RebalanceGet` | bench/servers/silo/btree_impl.h:1888-1990 | Internal steals and merges leave every lookup as it was. |
| `BtreeRemove.ShrinkOk` | bench/servers/silo/btree_impl.h:1852-1995 | Each child outcome turns into a well-formed outcome of the parent. |
| `BtreeRemove.ShrinkGet` | bench/servers/silo/btree_impl.h:1852-1995 | Each child outcome turns into a parent outcome with the child's lookups. |
| `BtreeRuns.RunLength` | bench/servers/silo/btree.h:1181-1185 | One slice has at most ten entries in a leaf. |
| `BtreeRuns.RunStart` | bench/servers/silo/btree_impl.h:1121-1130 | The start of the run of equal slices around an index. |
| `BtreeRuns.RunEnd` | bench/servers/silo/btree_impl.h:1132-1139 | The end of such a run. |
| `BtreeLinks.LeafRanges` | bench/servers/silo/btree_impl.h:124-141 | The leaves of a layer, left to right, partition the slice range: each one's min_key is where its predecessor ends. |
| `BtreeLinks.RespLeafStays` | bench/servers/silo/btree_impl.h:303-330 | The leaf a descent ends in is responsible for the slice, so no sideways move is taken without concurrent writers. |
| `BtreeLinks.RespLeafDecides` | bench/servers/silo/btree_impl.h:263-302 | A lookup in the tree is the lookup in that leaf. |
| `BtreeLinks.LastLeafIff` | bench/servers/silo/btree_impl.h:1091-1091 | A leaf has no right neighbour exactly when its range has no upper end. |
| `BtreeLinks.InsertSplices` | bench/servers/silo/btree_impl.h:1076-1249 | Inserting into a layer is inserting into the responsible leaf: that leaf is replaced in the sequence of leaves by what the insert makes of it, all others keep their content and order. |
| `BtreeLinks.LeafInsertLeaves` | bench/servers/silo/btree_impl.h:1231-1240 | An insert into a leaf keeps its min_key and adds at most one new leaf, right behind it. |
| `BtreeLinks.RemoveSplices` | bench/servers/silo/btree_impl.h:1412-1997 | With both siblings, a removal changes the sequence of leaves exactly as the outcome at the responsible leaf says: one leaf, or it and one neighbour with their new boundary, or one of the two gone; internal rebalancing only regroups leaves. |
| `BtreeLinks.RemoveInLayer` | bench/servers/silo/btree_impl.h:569-615 | The same for a whole layer, root replacement included. |
| `BtreeLinks.RegroupedLeaves` | bench/servers/silo/btree_impl.h:1899-1990 | Internal steals, merges and root replacement leave the sequence of leaves unchanged. |
| `BtreeLeafList.LinkAfter` | bench/servers/silo/btree_impl.h:1231-1236 | Linking a new leaf behind a leaf of a doubly linked list gives the list with it in that place, both ways. |
| `BtreeLeafList.UnlinkNext` | bench/servers/silo/btree_impl.h:1698-1717 | Unlinking the right one of two neighbours gives the list without it, both ways; the leaf is marked deleting and still points left. |
| `BtreeLeafList.Bury` | bench/servers/silo/btree_impl.h:1698-1717 | A leaf just unlinked joins the deleted ones, each of which leads left to the list or to a leaf deleted later. |
| `BtreeLeafList.LeaveDeleted` | bench/servers/silo/btree_impl.h:706-723 | From a deleted leaf the walk to the left ends on the list; the move to the right and the assertion the authors doubt are never reached. |
| `BtreeLeafList.StepTo` | bench/servers/silo/btree_impl.h:724-751 | From any leaf on the list the walk to the left or right ends in the leaf that covers the slice. |
| `BtreeLeafList.FindRespLeaf` | bench/servers/silo/btree_impl.h:699-751 | From any leaf of a layer, deleted ones included, the sideways walk terminates in the one leaf responsible for the slice. |
| `BtreeThread.ThreadedLayer` | bench/servers/silo/btree_impl.h:124-141 | Links that carry the leaves of a well-formed layer form the list the sideways walk needs: ascending min_keys from 0. |
| `BtreeThread.RespCovers` | bench/servers/silo/btree_impl.h:303-330 | The leaf a descent ends in is the one that covers the slice in the list. |
| `BtreeThread.InsertedLeaves` | bench/servers/silo/btree_impl.h:814-1352 | The leaves after an insert into a layer are the old ones with the responsible leaf replaced by itself, or by itself and one new leaf. |
| `BtreeThread.RemovedChanges` | bench/servers/silo/btree_impl.h:569-615 | The leaves after a removal are the old ones changed as the outcome at the responsible leaf says, at that place. |
| `BtreeThread.RemovedOk` | bench/servers/silo/btree_impl.h:569-615 | A removal leaves a well-formed layer. |
| `BtreeThread.AddLeaf` | bench/servers/silo/btree_impl.h:1231-1240 | The pointer stores of a split turn a list carrying the old leaves into one carrying the new ones. |
| `BtreeThread.DropLeaf` | bench/servers/silo/btree_impl.h:1698-1717 | The pointer stores of a merge turn a list carrying the old leaves into one carrying the new ones. |
| `BtreeThread.MoveBoundary` | bench/servers/silo/btree_impl.h:1655-1656 | The one min_key store of a steal does the same; the links stay. |
| `BtreeThread.Layer.constructor` | bench/servers/silo/btree_impl.h:108-113 | A new layer has one leaf, and the list is that leaf. |
| `BtreeThread.Layer.Find` | bench/servers/silo/btree_impl.h:699-751 | The sideways walk from any leaf, even one deleted by an earlier removal, ends in the leaf a descent from the root ends in. |
| `BtreeThread.Layer.Insert` | bench/servers/silo/btree_impl.h:814-1352 | After any insert the list threads exactly the leaves of the new tree, in order, with their min_keys; it grew by at most one leaf, right behind the responsible one. |
| `BtreeThread.Layer.Adjust` | bench/servers/silo/btree_impl.h:1231-1249 | The step of an insert on the list. |
| `BtreeThread.Layer.Remove` | bench/servers/silo/btree_impl.h:1412-1819 | After any removal, through steals, merges and root replacement, the list threads exactly the leaves of the new tree and every deleted leaf leads back to it. |
| `BtreeThread.Layer.Settle` | bench/servers/silo/btree_impl.h:1634-1813 | The stores each of the outcomes of a leaf removal makes to the list. |
| `BtreeThread.Layer.Bury` | bench/servers/silo/btree_impl.h:1698-1717 | A merge takes one leaf off the list, and it leads back to it. |
| `BtreeArrays.SiftRight` | bench/servers/silo/btree.h:1563-1571 | Moves [p, n) right by k cells and touches nothing else. |
| `BtreeArrays.SiftLeft` | bench/servers/silo/btree.h:1589-1597 | Moves [p + k, n) left by k cells and touches nothing else. |
| `BtreeArrays.CopyInto` | bench/servers/silo/btree.h:1612-1618 | Copies [p, n) of the source and touches nothing else of the destination. |
| `BtreeArrays.InsertCell` | bench/servers/silo/btree_impl.h:998-1003 | Shift and store insert one element. |
| `BtreeArrays.RemoveCell` | bench/servers/silo/btree.h:1721-1724 | Shifting left removes one element. |
| `BtreeArrays.StoreCell` | bench/servers/silo/btree_impl.h:1905-1919 | A store behind the used cells appends one element. |
| `BtreeArrays.CopyWith` | bench/servers/silo/btree_impl.h:1329-1346 | Two copies and a store put a range with one new element into another array. |
| `BtreeArrays.AppendCells` | bench/servers/silo/btree_impl.h:1924-1931 | Copying behind the used cells appends. |
| `BtreeArrays.AppendAllBut` | bench/servers/silo/btree_impl.h:1783-1790 | Two copies around a position append all elements but one. |
| `BtreeArrays.RotateIn` | bench/servers/silo/btree_impl.h:1944-1950 | Removing an element and shifting right puts another in front. |
| `BtreeSearch.KeySearch` | bench/servers/silo/btree.h:850-868 | The binary search returns the slot of exactly this slice and length, and -1 exactly when there is none. |
| `BtreeSearch.LowerBound` | bench/servers/silo/btree.h:874-896 | The binary search returns the last slot not ranked above (slice, length), -1 if none. |
| `BtreeSearch.FindLowerBound` | bench/servers/silo/btree_impl.h:767-791 | The scan after a search with length 0 finds the same lower bound, and the match exactly when there is one. |
| `BtreeSearch.ChildSearch` | bench/servers/silo/btree.h:983-1004 | The binary search returns one less than the index of the responsible child. |
| `BtreeSearch.FirstOfRun` | bench/servers/silo/btree_impl.h:1123-1128 | The backward loop stops at the start of the run. |
| `BtreeSearch.EndOfRun` | bench/servers/silo/btree_impl.h:1132-1137 | The forward loop stops at the end of the run. |
| `BtreeLeafNode.LeafNode.constructor` | bench/servers/silo/btree_impl.h:108-113 | A new leaf is empty. |
| `BtreeLeafNode.LeafNode.Set` | bench/servers/silo/btree_impl.h:998-1013 | Writing one slot changes that slot in all four parallel arrays and no other. |
| `BtreeLeafNode.LeafNode.Right` | bench/servers/silo/btree.h:1563-1584 | All four arrays shift right together. |
| `BtreeLeafNode.LeafNode.Left` | bench/servers/silo/btree.h:1589-1608 | All four arrays shift left together. |
| `BtreeLeafNode.LeafNode.CopyFrom` | bench/servers/silo/btree.h:1612-1626 | All four arrays copy together. |
| `BtreeLeafNode.LeafNode.Insert` | bench/servers/silo/btree_impl.h:998-1014 | In place, the slots become the old ones with one inserted. |
| `BtreeLeafNode.LeafNode.Remove` | bench/servers/silo/btree.h:1705-1727 | In place, the slots become the old ones with one removed. |
| `BtreeLeafNode.LeafNode.Exchange` | bench/servers/silo/btree_impl.h:1677-1697 | A leaf that drops a slot and copies part of its sibling holds the rest followed by that part. |
| `BtreeLeafNode.LeafNode.StealRight` | bench/servers/silo/btree_impl.h:1634-1664 | A steal moves the first run of the right sibling behind the remaining slots and raises the sibling's min_key. |
| `BtreeLeafNode.LeafNode.StealLeft` | bench/servers/silo/btree_impl.h:1736-1769 | A steal moves the last run of the left sibling in front of the remaining slots and lowers this leaf's min_key. |
| `BtreeLeafNode.LeafNode.MergeLeft` | bench/servers/silo/btree_impl.h:1779-1798 | A merge appends the remaining slots to the left sibling. |
| `BtreeLeafNode.LeafNode.SplitRight` | bench/servers/silo/btree_impl.h:1148-1182 | A cut with the new slot on the right leaves exactly the two halves in the two leaves. |
| `BtreeLeafNode.LeafNode.SplitLeft` | bench/servers/silo/btree_impl.h:1190-1222 | A cut with the new slot on the left leaves exactly the two halves in the two leaves. |
| `BtreeLeafOps.FindSplitPoint` | bench/servers/silo/btree_impl.h:1121-1146 | The loops on the key array compute the split point. |
| `BtreeLeafOps.Cut` | bench/servers/silo/btree_impl.h:1148-1229 | The in-place cut is the value-level one. |
| `BtreeLeafOps.CutNew` | bench/servers/silo/btree_impl.h:1121-1229 | Finding the split point and cutting into a new leaf leaves the value-level halves. |
| `BtreeLeafOps.OneSlot` | bench/servers/silo/btree_impl.h:1100-1108 | The append-to-the-right case starts a leaf with the new slot alone. |
| `BtreeLeafOps.SetMin` | bench/servers/silo/btree_impl.h:1238-1239 | The first slice becomes the min_key. |
| `BtreeLeafOps.FirstRun` | bench/servers/silo/btree_impl.h:1622-1626 | The loop finds the end of the first run of a leaf. |
| `BtreeLeafOps.LastRun` | bench/servers/silo/btree_impl.h:1726-1730 | The loop finds the start of the last run of a leaf. |
| `BtreeLeafOps.Split` | bench/servers/silo/btree_impl.h:1091-1240 | The in-place split is the value-level one; the new leaf's min_key is its first slice. |
| `BtreeLeafOps.AddSlot` | bench/servers/silo/btree_impl.h:985-1249 | In place, adding a slot either inserts it in order or leaves the two halves of SplitLeaf. |
| `BtreeLeafOps.RemoveTakingRight` | bench/servers/silo/btree_impl.h:1615-1717 | In place, removal with a right sibling ends in the state and status of the value-level outcome. |
| `BtreeLeafOps.RemoveTakingLeft` | bench/servers/silo/btree_impl.h:1719-1813 | In place, removal with a left sibling ends in the state and status of the value-level outcome. |
| `BtreeLeafOps.RemoveSlot` | bench/servers/silo/btree_impl.h:1520-1813 | In place, removal of a slot from a leaf with any neighbours ends in the leaves and the status of the value-level removal: alone if the leaf stays large enough, else with the right neighbour, else with the left one. |
| `BtreeInternalNode.InternalNode.constructor` | bench/servers/silo/btree_impl.h:146-151 | A new internal node has room for 15 separators and 16 children. |
| `BtreeInternalNode.InternalNode.Put` | bench/servers/silo/btree_impl.h:1280-1286 | Shifts and stores put a separator and the child right of it in place. |
| `BtreeInternalNode.InternalNode.SplitLow` | bench/servers/silo/btree_impl.h:1305-1318 | First split case, in place. |
| `BtreeInternalNode.InternalNode.SplitMiddle` | bench/servers/silo/btree_impl.h:1319-1328 | Second split case, in place: the new separator goes up. |
| `BtreeInternalNode.InternalNode.SplitHigh` | bench/servers/silo/btree_impl.h:1329-1346 | Third split case, in place. |
| `BtreeInternalNode.InternalNode.Drop` | bench/servers/silo/btree.h:1729-1739 | Removes a separator and the child right of it. |
| `BtreeInternalNode.InternalNode.StealRight` | bench/servers/silo/btree_impl.h:1905-1919 | Takes the right sibling's first child under the parent's separator. |
| `BtreeInternalNode.InternalNode.DropFirst` | bench/servers/silo/btree_impl.h:1905-1919 | The first separator and child leave the node. |
| `BtreeInternalNode.InternalNode.MergeRight` | bench/servers/silo/btree_impl.h:1920-1933 | Takes all of the right sibling. |
| `BtreeInternalNode.InternalNode.StealLeft` | bench/servers/silo/btree_impl.h:1944-1955 | Takes the left sibling's last child in front. |
| `BtreeInternalNode.InternalNode.MergeLeft` | bench/servers/silo/btree_impl.h:1956-1975 | Hands everything over to the left sibling. |
| `BtreeInternalNode.InternalNode.MergeKeys` | bench/servers/silo/btree_impl.h:1956-1975 | The separators of that merge. |
| `BtreeInternalNode.InternalNode.MergeKids` | bench/servers/silo/btree_impl.h:1956-1975 | The children of that merge. |
| `BtreeInternalNode.PutChild` | bench/servers/silo/btree_impl.h:1273-1349 | In place, adding the half of a split child is the value-level PutInInternal, in all cases. |
| `BtreeInternalNode.RebalanceRight` | bench/servers/silo/btree_impl.h:1870-1935 | In place, a node that lost a child and has a right sibling ends as the value-level Rebalance says. |
| `BtreeInternalNode.RebalanceLeft` | bench/servers/silo/btree_impl.h:1870-1977 | The same with a left sibling only. |
| `VersionWord.CheckComparesFields` | bench/servers/silo/btree.h:172-179 | Comparing the masked 64-bit words is comparing every header field but the lock bit. |
| `VersionWord.StepInv` | bench/servers/silo/btree.h:86-179 | Every step of any thread, the stores without a modifying section included, keeps the header invariant. |
| `VersionWord.CheckedReadIsStable` | bench/servers/silo/btree.h:161-179 | In every reachable state, a reader whose check would answer true has missed a multiple of 2^55 version changes; if fewer than 2^55, no modifying section has run or is open since its load, and the node is as loaded if and only if no store outside a modifying section was made. |
| `VersionWord.CheckSays` | bench/servers/silo/btree.h:172-179 | The check answers true exactly when no field of the header but the lock bit differs from the one loaded. |
| `VersionWord.HeaderFollowsRun` | bench/servers/silo/btree.h:86-160 | In every run the marks, the root bit and the key count are those its steps have set: a node once marked deleting stays so, unlocking clears the modifying mark only, and the version changes counted are the unlocks of a marked node. |
| `VersionWord.VersionFollowsRun` | bench/servers/silo/btree.h:138-160 | The version is the initial one plus the unlocks of a marked node along the run, in 55 bits. |
| `VersionWord.QuietWriteGoesUnnoticed` | bench/servers/silo/btree_impl.h:852-861 | A run where a value is overwritten under the lock, without marking the node modified, between a load and a check that succeeds. |
| `VersionWord.FullTurnGoesUnnoticed` | bench/servers/silo/btree.h:138-179 | The bound is needed: a run with exactly 2^55 writes in between, where the check succeeds. |
| `VersionWord.InfoIsPublished` | bench/servers/silo/btree_impl.h:1014-1024 | insert_info's new_version is the version that unlocking publishes exactly when the version field does not overflow. |
| `VersionWord.OneHolder` | bench/servers/silo/btree.h:86-137 | At most one thread holds the lock. |
| `JobRing.RingSafe` | bench/servers/common-linux-pool.c:116-161 | Under every interleaving of any number of pushers and poppers, with at least two cells: the pop that makes the p-th claim of the run receives the job of the p-th push that the run begins, no ticket is received twice, and a cell is written by one thread at a time that nobody else is using. |
| `JobRing.TicketsInOrder` | bench/servers/common-linux-pool.c:142-161 | The ticket a popper holds is the number of its claim, counted along the run. |
| `JobRing.DeliveredIff` | bench/servers/common-linux-pool.c:127-161 | On every run, with any number of cells, the jobs in the ring's history are those given to the pushes of the run in order, and delivery by ticket is delivery by these numbers. |
| `JobRing.TicketClaimed` | bench/servers/common-linux-pool.c:127-161 | The semaphore makes every popper's ticket one a pusher has taken. |
| `JobRing.RingNeverStuck` | bench/servers/common-linux-pool.c:127-161 | While some push or pop is unfinished and some thread waits to pop, some thread has an enabled step. |
| `JobRing.RingDeliversIff` | bench/servers/common-linux-pool.c:116-161 | With at least two threads, every pop receives the job given to the push of the same number on all runs if and only if the ring has at least two cells. |
| `JobRing.OneCellFails` | bench/servers/common-linux-pool.c:116-161 | A run on which a ring of one cell loses a job. |
| `JobRing.StepInv` | bench/servers/common-linux-pool.c:127-161 | Every atomic step keeps the ring invariant. |
| `JobRing.ReachableInv` | bench/servers/common-linux-pool.c:116-161 | Every reachable state satisfies it. |
| `Framing.ParseAppend` | rakaia/plain-tcp/strparser.c:168-321 | Parsing a longer stream goes on from where the parse of its prefix stopped. |
| `Framing.ReceiveAllParses` | rakaia/plain-tcp/strparser.c:89-322 | Any sequence of buffers leaves the receiver where the one-shot parse of all bytes is, when no message is shorter than its own header. |
| `Framing.CuttingFreeIff` | rakaia/plain-tcp/strparser.c:168-321 | The delivered messages are independent of the cutting into buffers if and only if no message of the stream is shorter than its own header; the same condition decides whether some cutting makes the receiver give up on a length within the bytes held. |
| `Framing.ParseConcat` | rakaia/plain-tcp/strparser.c:168-321 | Messages sent back to back are the messages parsed. |
| `Framing.StreamDelivered` | rakaia/plain-tcp/strparser.c:168-321 | Any cutting of well-formed messages followed by the beginning of one delivers exactly those messages and holds exactly that beginning. |
| `StreamParser.StrParser.constructor` | rakaia/plain-tcp/strparser.c:447-485 | A new parser has no message in progress. |
| `StreamParser.StrParser.Recv` | rakaia/plain-tcp/strparser.c:89-322 | The receive loop terminates and takes the parser state to the reference receiver's; all bytes are eaten unless it gives up. |
| `StreamParser.StrParser.Append` | rakaia/plain-tcp/strparser.c:179-207 | Starting or chaining a buffer keeps the bytes of the message in progress in order. |
| `StreamParser.StrParser.Iteration` | rakaia/plain-tcp/strparser.c:168-321 | One pass of the loop: deliver a message and go on with the rest, wait for more, or give up. |
| `StreamParser.LooksAtHeader` | rakaia/plain-tcp/rakaiasock.c:365-396 | The memcached length depends on the first 28 bytes only and is 0 with fewer; what it is on an encoded header is MemcachedWire.LengthOfHeader. |
| `StreamParser.ShortLengthIff` | rakaia/plain-tcp/rakaiasock.c:381-395 | A length of 1..27 comes exactly from a SET whose 32-bit sum wraps. |
| `StreamParser.NoWrapIff` | rakaia/plain-tcp/rakaiasock.c:365-396 | A stream has a message shorter than its header exactly when some SET in it wraps. |
| `StreamParser.SegmentationFreeIff` | rakaia/plain-tcp/strparser.c:168-321 | With the memcached length function, every cutting delivers the one-shot parse if and only if no SET header of the stream wraps; and if and only if none wraps, no cutting leads to the branch that gives up on a length within the bytes held. |
| `StreamParser.WrappingSet` | rakaia/plain-tcp/strparser.c:243-251 | For every maximum message size from the header size on, a stream of one header on which the cutting matters. |
| `MemcachedWire.LengthOfHeader` | rakaia/plain-tcp/rakaiasock.c:365-396 | On any 28 bytes that encode a header (magic, opcode, id, big-endian key length, extra length, type, vbucket, big-endian body length, opaque, version), whatever follows, the length is 28 plus body length for a SET and 28 plus key and extra length otherwise; from 2^31 on, that sum minus 2^32. |
| `MemcachedWire.Lengths` | rakaia/plain-tcp/rakaia.h:28-42 | Key and body length are read off the encoded header. |
| `MemcachedWire.ServerReads` | bench/servers/common-linux-pool.c:522-569 | The server reads the id that was encoded, accepts exactly a request magic with opcode GET, SET or GETK and a body that holds key and extra bytes, and takes the request to be as long as encoded. |
| `MemcachedWire.SameRequests` | rakaia/plain-tcp/strparser.c:168-321 | However a stream of encoded requests with the beginning of one more is cut into buffers, the kernel delivers exactly those requests and holds that beginning, and the server's reference takes exactly the ids encoded. |
| `MemcachedWire.IdsOnWire` | bench/servers/common-linux-pool.c:515-592 | From any beginning of a stream of encoded requests the server takes the ids of the requests that are whole in it. |
| `MemcachedWire.NothingMalformed` | bench/servers/common-linux-pool.c:522-567 | Behind whole requests of such a stream no header is refused. |
| `MemcachedWire.Serve` | bench/servers/common-linux-pool.c:515-592 | Over any number of calls of process_conn_reads with any pattern of reads, on a stream of encoded requests: the jobs, followed by the requests dropped at the end, are the ids encoded, in order, of the requests that have wholly arrived; the connection is closed at the end of the stream only. |
| `Http2.FramesCuttingFree` | rakaia/grpc/strparser.c:131-149 | HTTP/2 frames (section 4.1 of RFC 7540) never depend on how the byte stream is cut. |
| `Http2.StreamsAreIndependent` | rakaia/grpc/strparser.c:505-582 | For any interleaving, the messages delivered for a stream are its own kept frames in order, cut after each last one; the open remainder is what the table holds. |
| `Http2.ConnectionDelivers` | rakaia/grpc/strparser.c:505-854 | End to end from any bytes: for any cutting, each stream gets the messages made of its own frames in the one-shot parse. What the frames of encoded bytes are is Http2Wire.EncodedFramesDelivered. |
| `Http2.AccountBalances` | rakaia/grpc/strparser.c:528-536 | Increments sent plus bytes unacknowledged equal the payload bytes of counted frames, for any window. |
| `Http2.IncrementsLegal` | rakaia/grpc/strparser.c:528-536 | With a window of at least 4, every increment is legal (section 6.9 of RFC 7540) and less than a quarter stays unacknowledged. |
| `Http2.AlwaysLegalIff` | rakaia/grpc/strparser.c:528-536 | All increments on all runs are legal if and only if the window is at least 4. |
| `Http2.UpdateRoundTrip` | rakaia/grpc/strparser.c:360-412 | A WINDOW_UPDATE sent is framed as one message and its increment is decoded exactly, whatever follows it. |
| `Http2.UpdateStandsAloneIff` | rakaia/grpc/strparser.c:463-501 | The increment taken from a received WINDOW_UPDATE depends on that frame alone if and only if its payload has at least four bytes or its stream is not 0. |
| `Http2Wire.LengthOfFrame` | rakaia/grpc/strparser.c:131-149 | A frame encoded by section 4.1 of RFC 7540 has length 9 plus its payload, whatever follows. |
| `Http2Wire.FrameRoundTrip` | rakaia/grpc/strparser.c:131-149 | Decoding an encoded frame gives its stream id, type, flags and payload, whatever the reserved bit. |
| `Http2Wire.UpdateIsFrame` | rakaia/grpc/strparser.c:360-412 | The window update sent is the encoding of a frame of type 8 on stream 0 whose payload is the increment. |
| `Http2Wire.FramesReceived` | rakaia/grpc/strparser.c:131-149 | However encoded frames with the beginning of one more are cut into buffers, exactly those frames are received and that beginning is held. |
| `Http2Wire.MessagesAreSplit` | rakaia/grpc/strparser.c:537-557 | The messages cut frame by frame as they arrive are those cut from the front after each frame with flag bit 0 or type 3. |
| `Http2Wire.EncodedFramesDelivered` | rakaia/grpc/strparser.c:505-854 | End to end from encoded frames: for any cutting, each stream gets its own frames of types 0, 1, 3 and 9 in order, cut after each one with flag bit 0 or type 3; increments sent plus bytes unacknowledged equal the payload bytes of types 0 and 3. |
| `Http2.Demux.constructor` | rakaia/grpc/strparser.c:977-1016 | A new connection has no streams. |
| `Http2.Demux.Lookup` | rakaia/grpc/strparser.c:224-235 | The bucket search finds the stream's buffer, and nothing exactly when the stream is not open. |
| `Http2.Demux.Add` | rakaia/grpc/strparser.c:276-292 | A frame joins its stream's buffer, or starts the only buffer of that stream; no other stream changes. |
| `Http2.Demux.Flush` | rakaia/grpc/strparser.c:237-274 | The buffer is handed up whole and the stream leaves the table. |
| `Http2.Demux.Acknowledge` | rakaia/grpc/strparser.c:528-536 | Accounting as the reference does it. |
| `Http2.Demux.Keep` | rakaia/grpc/strparser.c:537-557 | A kept frame is chained and its message handed up when it is the last. |
| `Http2.Demux.Handle` | rakaia/grpc/strparser.c:505-582 | After any frame the hash table, the deliveries and the account are those of the reference on all frames seen. |
| `SchedulerSteps.BitmapAgrees` | rakaia/plain-tcp/rakaiasock.c:136-273 | Over every lock-level interleaving of push, pull and steal, a queue's bit says whether it is non-empty whenever its lock is free. |
| `SchedulerSteps.WaitersAgree` | rakaia/plain-tcp/rakaiasock.c:193-273 | A socket is on the waiter list, once, exactly when its bit is set, whenever the list's lock is free. |
| `SchedulerSteps.ExactlyOnePlace` | rakaia/plain-tcp/rakaiasock.c:136-317 | Every pushed message is in exactly one place, once: a queue, a thread's hands, a receive queue, or refused. Which one is SchedulerDuty.EveryStepDutiful. |
| `SchedulerDuty.EveryStepDutiful` | rakaia/plain-tcp/rakaiasock.c:136-1106 | Over every interleaving, from the start of an operation to its end: a push adds its own message to the queue it chose, takes that socket off the waiter list if it waits and else the longest waiting one, and hands the message to that socket only; a pull for socket k takes from another queue only after finding k's own empty, delivers to k only, and otherwise ends with k on the waiter list. |
| `SchedulerDuty.PickServes` | rakaia/plain-tcp/rakaiasock.c:193-212 | The socket a push picks is the chosen one if it waits, else the first waiter. |
| `SchedulerSteps.QueuesAreFifo` | rakaia/plain-tcp/rakaiasock.c:136-273 | Every queue gives up messages in the order it took them. |
| `SchedulerSteps.StepInv` | rakaia/plain-tcp/rakaiasock.c:136-317 | Every lock-level step keeps the invariant behind these. |
| `SchedulerRace.MessageStranded` | rakaia/plain-tcp/rakaiasock.c:193-273 | With at least one socket and two threads there is an interleaving of pushes, one for each socket and one more, with one pull that ends with everybody done, a queued message and an idle socket: the non-empty bit is set after the waiters lock is released. |
| `SchedulerWindow.StepConservesIff` | rakaia/plain-tcp/rakaiasock.c:193-273 | A step from a state that conserves work leads to one that does if and only if it is not a misled one: a bitmap check that finds no bit while a push is about to set one. |
| `SchedulerWindow.RunConservesIff` | rakaia/plain-tcp/rakaiasock.c:136-273 | Work is conserved all along a run if and only if none of its pulls is misled. |
| `SchedulerWindow.OrderlyConserves` | rakaia/plain-tcp/rakaiasock.c:136-273 | A run without a misled pull never ends with everybody done, an idle socket and a queued message. |
| `SchedulerWindow.NeverStrandsIff` | rakaia/plain-tcp/rakaiasock.c:254-260 | No run strands a message if and only if there is no socket or at most one thread. |
| `Scheduler.PickRandomSetBit` | rakaia/plain-tcp/rakaiasock.c:112-131 | The loop returns the r-th set bit, r modulo the number of set bits; the last return is reached with an empty mask only. |
| `Scheduler.EveryBitCanBePicked` | rakaia/plain-tcp/rakaiasock.c:112-131 | Every set bit is the answer for exactly one residue of the draw. |
| `Scheduler.Sched.constructor` | rakaia/plain-tcp/rakaiasock.c:1382-1385 | All sockets wait and all queues are empty. |
| `Scheduler.Sched.QueueRcv` | rakaia/plain-tcp/rakaiasock.c:296-317 | A message joins one receive queue or is refused. |
| `Scheduler.Sched.GetAvail` | rakaia/plain-tcp/rakaiasock.c:193-219 | The local socket if it waits, else the first waiter; it leaves list and bitmap. |
| `Scheduler.Sched.Push` | rakaia/plain-tcp/rakaiasock.c:221-273 | The shorter of two random queues is chosen; an idle socket takes the message at once, otherwise it is queued; no socket idles while a message is queued. |
| `Scheduler.Sched.Dequeue` | rakaia/plain-tcp/rakaiasock.c:170-183 | The head of a queue is taken and the bit stays right. |
| `Scheduler.Sched.Steal` | rakaia/plain-tcp/rakaiasock.c:136-186 | The longer of two different non-empty victims loses its head; nothing is returned only when all queues are empty. |
| `Scheduler.Sched.Pull` | rakaia/plain-tcp/rakaiasock.c:1070-1106 | Own queue first, then stealing; the socket goes idle exactly when all queues are empty, so work conservation holds. |
| `PoolParser.SameBoundary` | bench/servers/common-linux-pool.c:559-569 | Server and kernel length function agree on a well-formed request exactly when its length fits an int; both lengths on an encoded request are MemcachedWire.LengthOfHeader and MemcachedWire.ServerReads. |
| `PoolParser.SameCuts` | bench/servers/common-linux-pool.c:515-592 | On a stream of whole requests the server takes the ids of exactly the messages the kernel framing cuts. |
| `PoolParser.IdsAppend` | bench/servers/common-linux-pool.c:515-592 | Whole requests in front of a stream only add their ids in front. |
| `PoolParser.OneRequest` | bench/servers/common-linux-pool.c:496-503 | One whole request gives one job with its id. |
| `PoolParser.Conn.constructor` | bench/servers/common-linux-pool.c:729-773 | A new connection has received and enqueued nothing. |
| `PoolParser.Conn.Recv` | bench/servers/common-linux-pool.c:198-226 | A read takes a prefix of what is on the wire, or reports EAGAIN, EINTR, the end or an error, as the environment decides. |
| `PoolParser.Conn.Compact` | bench/servers/common-linux-pool.c:177-187 | Compaction keeps the buffered bytes and moves them to the front. |
| `PoolParser.Conn.Store` | bench/servers/common-linux-pool.c:198-226 | Received bytes follow the buffered ones. |
| `PoolParser.Conn.FillOnce` | bench/servers/common-linux-pool.c:203-221 | One read takes the next part of what the filling brings. |
| `PoolParser.Conn.ReadMore` | bench/servers/common-linux-pool.c:198-226 | A filling appends exactly what the reads bring until the buffer is full or nothing more comes, and returns -1 exactly when it runs into the end. |
| `PoolParser.Conn.Refill` | bench/servers/common-linux-pool.c:228-236 | A filling in search of a header keeps every byte accounted for. |
| `PoolParser.Conn.TakeHeader` | bench/servers/common-linux-pool.c:238-240 | The header moves from the buffer into the current request. |
| `PoolParser.Conn.ReadHeader` | bench/servers/common-linux-pool.c:228-241 | A header is taken exactly when 28 bytes are there; nothing is lost. |
| `PoolParser.Conn.TakeBuffered` | bench/servers/common-linux-pool.c:246-253 | Pending bytes come from the buffer first. |
| `PoolParser.Conn.TakeOnce` | bench/servers/common-linux-pool.c:256-264 | One read into scratch space takes bytes of the current request only. |
| `PoolParser.Conn.TakeFromSocket` | bench/servers/common-linux-pool.c:255-275 | Then straight from the socket, never past the request. |
| `PoolParser.Conn.ConsumePending` | bench/servers/common-linux-pool.c:243-279 | Returns 1 exactly with nothing pending, 0 with an empty buffer; every byte stays accounted for. |
| `PoolParser.Conn.CheckHeader` | bench/servers/common-linux-pool.c:522-537 | A header with wrong magic or opcode closes the connection. |
| `PoolParser.Conn.CheckBody` | bench/servers/common-linux-pool.c:546-567 | A SET whose body is shorter than extra and key closes the connection; otherwise the value comes next. |
| `PoolParser.Conn.Enqueue` | bench/servers/common-linux-pool.c:570-582 | A complete request becomes one more job. |
| `PoolParser.Conn.NextState` | bench/servers/common-linux-pool.c:538-585 | The state machine moves on through extra, key and value, and enqueues a job when a request is complete. |
| `PoolParser.Conn.AdvanceHeader` | bench/servers/common-linux-pool.c:522-537 | STATE_HEADER takes a header, waits for bytes, or closes. |
| `PoolParser.Conn.AdvanceBody` | bench/servers/common-linux-pool.c:538-585 | The other states take their bytes, wait for more, or close. |
| `PoolParser.Conn.Close` | bench/servers/common-linux-pool.c:527-530 | Closing at the end of the stream leaves every byte accounted for. |
| `PoolParser.Conn.Advance` | bench/servers/common-linux-pool.c:515-592 | One pass through the switch makes progress, waits for bytes, or closes. |
| `PoolParser.Conn.ProcessReads` | bench/servers/common-linux-pool.c:515-592 | For any pattern of short reads, EAGAIN, EINTR, end and error, the ids of the complete requests received are those enqueued followed by those dropped, in order. All are enqueued if and only if the connection is not closed at the end of the stream with a complete request in its buffer. When the first filling runs into the end, this is decided before the call: all are enqueued if and only if buffer and filling do not begin with a complete request. Bytes received and bytes to come are the bytes sent. The result is true exactly if a job was enqueued and the connection is not closed. |
| `PoolParser.Conn.AtTheEnd` | bench/servers/common-linux-pool.c:198-226 | A filling that runs into the end loses requests if and only if one is complete then. |
| `PoolParser.DropsRequest` | bench/servers/common-linux-pool.c:515-592 | Every whole request below 2048 bytes that is read in one filling with the end is lost: no job, though it was received. |
| `PoolParser.LastCall` | bench/servers/common-linux-pool.c:515-537 | A call that runs into the end in search of a header enqueues nothing. |
| `PoolConn.OneOwner` | bench/servers/common-linux-pool.c:398-405 | In every reachable state at most one thread owns the connection. |
| `PoolConn.SentInOrder` | bench/servers/common-linux-pool.c:323-361 | The bytes sent are a prefix of the responses in the order their inbox pushes succeeded; on an open connection exactly the fully sent ones and the sent part of the next, so partial sends neither repeat nor skip. |
| `PoolHistory.AnswersFollowRun` | bench/servers/common-linux-pool.c:323-361 | In every run the bytes sent are as many as the sends took and a prefix of the responses to the requests that the run read, no request twice; a request not answered yet waits or has a worker. |
| `PoolHistory.RunTrace` | bench/servers/common-linux-pool.c:570-582 | The responses are those of the requests read, in order of reading; every byte sent is one that a send took. |
| `PoolConn.RefcountExact` | bench/servers/common-linux-pool.c:163-171 | The reference count is the accept reference plus the requests whose completion is not released; unless there is exactly one I/O thread it never reaches 0. |
| `PoolConn.ReleasedOnce` | bench/servers/common-linux-pool.c:318-396 | A completion being released was not released before and is held nowhere else. |
| `PoolConn.StepInv` | bench/servers/common-linux-pool.c:594-690 | Every atomic step of any worker or I/O thread keeps the connection invariant. |
| `PoolLife.FreedInUseIff` | bench/servers/common-linux-pool.c:435-463 | A connection can lose its last reference while some thread is at work on it if and only if there is a single I/O thread and another thread beside it. |
| `PoolLife.FreedUnderWorker` | bench/servers/common-linux-pool.c:801-822 | With these numbers a worker can then be about to load closed, to set io_pending, to acquire, or to take the inbox. |
| `PoolLife.LeakIff` | bench/servers/common-linux-pool.c:380-396 | A connection can be closed by a worker, which does not retire it, if and only if there are I/O threads and workers. |
| `PoolLife.LeakedForever` | bench/servers/common-linux-pool.c:392-394 | The accept reference of a connection closed by a worker is never released, whatever follows. |
| `PoolWatch.StepWatchedIff` | bench/servers/common-linux-pool.c:407-433 | If every completion in the inbox of an open connection is watched (io_pending is set, epoll is to report EPOLLOUT, or a thread is on its way to the inbox or to either of these), a step keeps it so if and only if the last thread to know does not turn away with it: by failing to become owner, by trusting a stale epollout_armed, or by giving EPOLLOUT up. |
| `PoolWatch.RunWatchedIff` | bench/servers/common-linux-pool.c:594-690 | Completions are watched all along a run if and only if the last thread to know never turns away. |
| `PoolWatch.UnwatchedStays` | bench/servers/common-linux-pool.c:594-690 | A completion no longer watched stays in the inbox, unwatched, through every step but an event, a broken or full socket, or another push. |
| `PoolPair.PairNotices` | bench/servers/common-linux-pool.c:633-690 | With at most two threads every completion is watched in every state of every run, by io_pending and the threads alone. |
| `PoolLife.NeverLeavesIff` | bench/servers/common-linux-pool.c:594-690 | Completions are watched on all runs if and only if there are at most two threads, or only workers, or only I/O threads. |
| `Allocator.ArenaSizeFits` | bench/servers/silo/allocator.h:45-51 | Exactly the sizes 1..512 have an arena, whose chunks have the rounded size: a multiple of 16 with less than 16 bytes to spare. |
| `Allocator.ICeilIsLeast` | bench/servers/silo/util.h:183-189 | iceil is the least multiple from x on. |
| `Allocator.ChunksAre` | bench/servers/silo/allocator.cc:165-181 | The chunks of a page are all aligned units that fit, each once. |
| `Allocator.InitializePage` | bench/servers/silo/allocator.cc:154-188 | The loop links exactly those chunks, in order, into a null-terminated list and writes nothing else. |
| `Allocator.LayoutFits` | bench/servers/silo/allocator.cc:92-138 | The per-CPU regions are huge-page aligned and lie inside the mapping. |
| `Allocator.CpuOfRegion` | bench/servers/silo/allocator.h:66-76 | Pointer arithmetic recovers the CPU of every address in its region. |
| `Allocator.ChunksDisjoint` | bench/servers/silo/allocator.cc:154-211 | Chunks of managed pages never overlap, across arenas and CPUs. |
| `Allocator.ChunkInRegion` | bench/servers/silo/allocator.cc:190-264 | Every chunk is aligned to its unit and lies in the handed-out part of its home CPU's region. |
| `Allocator.TakeList` | bench/servers/silo/allocator.cc:199-207 | Handing out a free list moves its chunks from free to held. |
| `Allocator.CarvePage` | bench/servers/silo/allocator.cc:209-210 | Carving a page adds its chunks to the held ones and disturbs no other chunk. |
| `Allocator.ReleaseOk` | bench/servers/silo/allocator.cc:266-308 | Releasing puts each chunk into the list of its home CPU and own arena; free and held chunks remain exactly the chunks carved. |
| `AllocatorLists.ConsList` | bench/servers/silo/allocator.cc:281-291 | Writing the old head into a chunk puts it in front of the list. |
| `AllocatorLists.JoinLists` | bench/servers/silo/allocator.cc:296-307 | Storing the second head through the tail of the first list joins the two. |
| `AllocatorLists.SortArena` | bench/servers/silo/allocator.cc:271-295 | One pass takes one released list apart, following its links, and leaves the other lists linked. |
| `AllocatorLists.SortByHome` | bench/servers/silo/allocator.cc:271-295 | The first loop turns the released lists into linked piles by home CPU and arena, losing nothing, and leaves the free lists linked. |
| `AllocatorLists.Splice` | bench/servers/silo/allocator.cc:296-307 | The second loop leaves every head at a null-terminated list that is its pile followed by the old free list. |
| `AllocatorHeap.ReleasableSeparate` | bench/servers/silo/allocator.cc:266-308 | Lists of held chunks share no chunk with each other or with a free list. |
| `AllocatorHeap.Alloc.constructor` | bench/servers/silo/allocator.cc:77-138 | All regions start unused. |
| `AllocatorHeap.Alloc.AllocateUnmanaged` | bench/servers/silo/allocator.cc:213-264 | Pages handed out unmanaged overlap no chunk; the call fails exactly when the region is exhausted. |
| `AllocatorHeap.Alloc.Store` | bench/servers/silo/rcu.cc:143-160 | Writes of a holder into its chunk disturb no free list. |
| `AllocatorHeap.Alloc.Claim` | bench/servers/silo/allocator.cc:199-207 | The whole free list is claimed and is empty afterwards; the head given out leads through exactly its chunks. |
| `AllocatorHeap.Alloc.Carve` | bench/servers/silo/allocator.cc:209-210 | A fresh page is carved; its chunks are new and linked in order. |
| `AllocatorHeap.Alloc.AllocateArenas` | bench/servers/silo/allocator.cc:190-211 | The pointer returned is the head of a list of chunks that were not held: the whole free list of that CPU and arena, which is empty afterwards, or, if it was empty, all chunks of a fresh page; no other list changes. The call fails exactly when the list is empty and the region exhausted, and then changes nothing. Conservation of chunks and the links of all free lists are kept. |
| `AllocatorHeap.Alloc.ReleaseArenas` | bench/servers/silo/allocator.cc:266-308 | Held chunks return to their home lists, in memory; conservation of chunks is kept. |
| `AllocatorPages.Region.constructor` | bench/servers/silo/allocator.cc:92-138 | A region starts with no page mapped. |
| `AllocatorPages.Region.AllocateUnmanaged` | bench/servers/silo/allocator.cc:221-264 | All pages handed out are mapped if and only if the region was faulted or at most one page was asked for. |
| `AllocatorPages.Region.FaultRegion` | bench/servers/silo/allocator.cc:319-371 | Afterwards all pages left are mapped; faulting twice changes nothing. |

## Left out

- The descents of `insert0` and `remove0` through a tree work on values, because node contents are
  what the invariant is about; update in place, aliasing and order of writes are modelled for single
  leaves, internal nodes, their siblings and the leaf links, not for a whole tree in memory.
- Retries, lock acquisition order and version checks of concurrent tree operations: the tree runs
  alone, the version word of one node is modelled separately.
- `suffixes_` is always allocated in the model and its swaps are copies; prefetching and lazily
  allocated suffix arrays are not modelled.
- Range scans of the tree: a nested layer is scanned without an upper bound, so there is no exact
  range to prove.
- Memory reclamation (RCU) and the merging back of layers, which the code does not do either.
- JobRing.RingNeverStuck: states absence of deadlock, not that a particular thread progresses, because
  a spinning thread can be starved by the operating system's scheduler.
- PoolConn.SentInOrder: states the order of bytes, not that they are eventually sent; that depends on
  epoll events outside the model.
- The completion cache of the pool server: an allocation detail with no effect on order or counts.
- What the memory of a connection holds after its last reference is released.
- When epoll reports what it has been asked for: an event on an open connection can come at any time. The
  reuse of a descriptor number by another connection is not modelled.
- Weak memory ordering: atomic operations are sequentially consistent steps.
- StreamParser.StrParser.Recv: socket-buffer cloning, memory failures, timers, pausing and
  `need_bytes` wake-ups are not modelled; after a parser error no further buffer is fed.
- Http2.Demux.Handle: PING and SETTINGS replies and the send quota are not modelled, because they have
  no effect on what is delivered; allocations succeed.
- Scheduler.Sched.Steal: the two random draws are arguments, the second being the one that ended the
  search for a different victim.
- Receive-memory accounting: whether a socket accepts a message is an arbitrary choice.
- AllocatorHeap.Alloc.AllocateArenas: runs alone; the locks of regions and CPUs, mmap failures and
  MEMCHECK_MAGIC are not modelled. Mapped pages are modelled per region, apart from the lists.
- SchedulerSteps.BitmapAgrees: the non-empty bits are one sequence; the code reads one 64-bit word of them,
  so the model is the code for up to 64 sockets (it is built for 20).
- The TLS variants and the scheduler copy under `rakaia/grpc`: near duplicates that would add the same
  members again.
- Socket creation, attachment, release, module teardown, statistics, service-time sampling, benchmark
  drivers and plotting: no hard property.
