# Verified model of a GoChain node's stateful core

A Dafny model of five components of the node and proofs of what they promise.

* **Segment store** (`ethdb`): `RobinHood`, `Framing`, `FileSegment`, `Encoder`, `Partition`,
  `Table`. Block data moves from mutable LevelDB segments into immutable files of varint-framed
  records with a Robin Hood hash index. The index agrees with a map for every hash function, files
  are read back as written, and a table of segments refines one map.
* **Concurrent Merkle hasher** (`bmt`): `BmtTree` (geometry), `BmtProtocol` (a state machine over the
  atomic steps of the caller and of all goroutines, and its invariant), `BmtClimb` and `BmtSteps` (every
  step keeps it), `BmtRuns` (whole runs), `BmtRef` (the recursive reference hasher and the
  cutting of a chunk), `BmtReuse` (chunk after chunk on one tree). Every interleaving delivers the
  reference hash and leaves the tree reusable.
* **Canonical chain** (`core`, `eth`): `Headers`, `HeaderChain`, `BlockChain`, `PoolReset`. The
  canonical index, total difficulties, the transaction lookup, reorganisation, ancestor queries and
  the transactions a reorganisation gives back to the pool.
* **Transaction pool** (`core`): `SortedMap` and `TxList` (one account's list with its heap, cache and
  caps), `PoolLists` and `Reinjection` (one account's two lists and the lookup), `PoolState`,
  `PoolMoves` and `PoolCount` (all accounts, promotion and demotion, and the limits), `PoolOffers`
  (batches, and which resets leave a gap), `TxPool` (the pool and every event).
* **Section indexer, request distributor and gas accounting** (`core`, `les`): `SectionRace` (two
  calls of `setValidSections`, write by write), `ChainIndexer`, `Distributor`, `Gas`.

Each component keeps the form of its source. Objects are classes whose methods update their fields,
loops are loops with invariants, and concurrent code is a sequence of atomic steps in any order. A
`Valid()` predicate holds the invariant; methods state the whole new state through a ghost field or a
function of the old state, and the lemmas beside them state what that means.

Modelling choices:

* Hashes of headers, blocks and transactions are identifiers. Hash functions (`hashKey`, the base
  hash of the Merkle tree, the checksum) are arbitrary functions.
* Databases are maps and caches in front of them are transparent. Clocks, heartbeats, random choices
  and map iteration order are left open, so the proofs hold for every choice.
* `container/heap` and `sort` are specified by what they promise. The nonce heap is kept as a heap.
* Unsigned 64-bit wrap-around is explicit where the code depends on it (header queries, intrinsic gas,
  power of two, the 32-bit toggle). Counters that would need 2^64 events are unbounded.
* The pool's lists are the nonce-ordered sequences that `SortedMap.TxSortedMap` is proved to keep;
  every list operation of the pool is the function in that class's contract.
* A pool event calls `finishPromotion` as an event of its own (`Finish`), in which any sequence of
  non-empty pending lists may be trimmed, so every order the code can choose is covered.
* Other checks of `validateTx` (size, signature, price, intrinsic gas) are one flag, `passes`.
* The EVM is any function that returns no more gas than it got and conserves balances.
* A request is queued again only after it has left the distributor's queue.
* The writes of `setValidSections` are steps of their own, with and without the lock.
* A transaction occurs at most once on an ancestor line, and the genesis block has none.

Where the code differs from what one would expect, the model follows the code:

* `BmtReuse.ToggleTellsApart` and `BmtReuse.WornExactly` give the exact states and the exact number of
  uses after which a toggle stops telling two goroutines apart (it wraps to a negative number), and
  `BmtReuse.WornDelivers` a run that then delivers a wrong hash.
* `SectionRace.OverlapIsSafe` gives the exact cases in which a failing backend reset, which writes
  without the lock, can end in disagreement with a reorganisation notice, and
  `SectionRace.LostSection` an order of writes that does.
* `HeaderChain.SkipOverflowRepeats` and `HeaderChain.NumberGap` give the exact cases in which a
  number-mode header query does not advance by skip+1.
* `Table.Table.CreateSegmentIfNotExists` shows that a newly created segment stays mutable exactly if
  `MinMutableSegmentCount` is at least 1.
* `Reinjection.TrimmedGap` gives the exact cases in which reinjection and trims leave one account out of
  order, `TxPool.Pool.ResetTo` those of a whole reset in terms of its arguments and the pool before, and
  `TxPool.FailingReset` and `TxPool.TrimmedReset` resets that do.
* `SortedMap.TxSortedMap.Ready` can leave a stale cache in a list that it empties;
  `TxList.TxList.Promote` shows that such a list is discarded.

## Model

| member | source | states |
|---|---|---|
| `RobinHood.Dist` | ethdb/file_segment.go:690-692 | the code's masked expression counts the slots from the key's home, for any capacity |
| `RobinHood.Pow2` | ethdb/file_segment.go:723-730 | succeeds for exactly the sizes up to 2^61, so that its results fit 62 bits, and returns the least power of two (at least 2) not below the size |
| `RobinHood.Run` | ethdb/file_segment.go:209-241 | if a slot k places from some home holds an element at distance k or more, every slot before it back to that home is occupied at a distance no smaller than its own |
| `RobinHood.EarlyExit` | ethdb/file_segment.go:220-236 | meeting an empty slot, or an element closer to its home than the search is, proves that the key is nowhere in the table, for every hash function and also in a full table |
| `RobinHood.RoomLeft` | ethdb/file_segment.go:651-688 | while an empty slot is left, a displaced element never travels as far as the capacity |
| `RobinHood.MoveOn` | ethdb/file_segment.go:667-686 | one turn of the insertion loop, with or without a swap, keeps the walk's invariant |
| `RobinHood.Finish` | ethdb/file_segment.go:661-665 | dropping the carried element in an empty slot gives a valid table with exactly one offset more, and the key was new |
| `RobinHood.Duplicate` | ethdb/file_segment.go:673-676 | meeting the inserted key means it was present from the start and nothing was moved, although the key variable is never updated after a swap |
| `RobinHood.EncoderIndex.constructor` | ethdb/file_segment.go:615-629 | a new index has only empty slots and is valid |
| `RobinHood.EncoderIndex.Insert` | ethdb/file_segment.go:651-688 | keeps the probe-distance invariant, ends, adds exactly the offset, and reports a duplicate if and only if the key was present, leaving the table as it was |
| `Framing.UvarintReads` | ethdb/file_segment.go:270-286 | a varint that was written is read back with its length |
| `Framing.WordReads` | ethdb/file_segment.go:158-172 | a big-endian word that was written is read back |
| `Framing.FrameReads` | ethdb/file_segment.go:695-713 | a length-prefixed byte string that was written is read back, and the reader stops right after it |
| `Framing.RecordReads` | ethdb/file_segment.go:270-286 | record i of a written body is key i, then value i, and ends where record i+1 starts |
| `FileSegment.PresentIsKey` | ethdb/file_segment.go:209-241 | a complete file's index holds exactly the keys of its records |
| `FileSegment.Search` | ethdb/file_segment.go:214-240 | probing finds the record offset of a key if and only if the index holds it, and always ends |
| `FileSegment.Offset` | ethdb/file_segment.go:209-241 | both offsets of each written key, and (0, 0) for every other key |
| `FileSegment.Get` | ethdb/file_segment.go:181-198 | lookup in an encoded file is lookup in the map it was written from |
| `FileSegment.Iterator.constructor` | ethdb/file_segment.go:201-206 | an iterator starts before the first record |
| `FileSegment.Iterator.Next` | ethdb/file_segment.go:270-286 | yields the pairs in written order and reports the end exactly after the last |
| `Encoder.BuildIndex` | ethdb/file_segment.go:506-523 | succeeds if and only if the keys are distinct, and then every record is in a valid index of sufficient capacity |
| `Encoder.FileSegmentEncoder.Open` | ethdb/file_segment.go:427-446 | a new file holds the magic and a blank header |
| `Encoder.FileSegmentEncoder.EncodeKeyValue` | ethdb/file_segment.go:476-498 | one more pair is recorded at the end of the file |
| `Encoder.FileSegmentEncoder.Flush` | ethdb/file_segment.go:459-473 | succeeds if and only if nothing was flushed before and the keys are distinct; the file then encodes the written pairs, starts with the magic and carries the checksum of everything after it; a second flush leaves the file alone |
| `Encoder.AssembledReads` | ethdb/file_segment.go:506-543 | the header words written over the blank header are read back as index offset, length and capacity, and every slot as it was written |
| `Encoder.EncodeAll` | ethdb/ldb_segment.go:96-107 | every pair of the segment is encoded once, in whatever order the iterator yields them |
| `Encoder.CompactTo` | ethdb/ldb_segment.go:90-116 | the compacted file represents the segment's map |
| `Encoder.CopyPairs` | ethdb/ldb_segment.go:126-133 | copies all pairs of an iterator |
| `Encoder.UncompactSegmentTo` | ethdb/ldb_segment.go:119-136 | copying a file segment back restores the map it was written from |
| `Encoder.RepresentsOne` | ethdb/file_segment.go:270-286 | a file represents at most one map |
| `Partition.HexOrder` | ethdb/ethdb.go:143-149 | fixed-width hexadecimal names order and compare as the numbers do |
| `Partition.NamesFollowBlocks` | ethdb/ethdb.go:100-149 | segment names of two keys order as their block groups do, so a smaller name means a smaller block number |
| `Table.OldestByRank` | ethdb/table.go:331-337 | cutting the sorted names keeps exactly those with fewer than the minimum above them |
| `Table.NothingAbove` | ethdb/table.go:213-257 | a name above all others is never among those to compact when at least one must stay mutable |
| `Table.Table.constructor` | ethdb/table.go:40-53 | a new table is empty |
| `Table.Table.Get` | ethdb/table.go:273-283 | reads the one map the table stands for |
| `Table.Table.CompactSegment` | ethdb/table.go:347-352 | moving a segment into a file does not change the map, nor any other segment |
| `Table.Table.Uncompact` | ethdb/table.go:360-379 | moving a file back gives the mutable segment its old content and does not change the map |
| `Table.Table.CompactEach` | ethdb/table.go:337-356 | compacts those of the listed segments that are old enough and nothing else |
| `Table.Table.Compact` | ethdb/table.go:330-357 | segments among the newest that must stay mutable stay so; all other old ones are compacted unless an error stops it |
| `Table.Table.CreateSegmentIfNotExists` | ethdb/table.go:213-257 | refuses exactly a new name below the active one; a newly created segment that is old enough stays mutable if and only if at least one segment must |
| `Table.Table.Put` | ethdb/table.go:286-299 | the map gets the value, except that an empty value on an absent key changes nothing; a refused write changes nothing |
| `Table.Table.Delete` | ethdb/table.go:302-317 | refuses exactly when the segment is immutable and then changes nothing, else removes the key |
| `Table.Table.Run` | ethdb/table.go:213-379 | every run of gets, puts, deletes and compactions gives the answers of one map that puts and deletes update |
| `BmtClimb.NodeStepKeeps` | bmt/bmt.go:461-485 | storing a value, reading the mark, toggling and combining keep the protocol invariant: both sides of a node are in place before it is combined, and exactly one goroutine goes on |
| `BmtClimb.RootKeeps` | bmt/bmt.go:461-492 | going on to the parent, or out with the result at the root, keeps it |
| `BmtSteps.MarkKeeps` | bmt/bmt.go:528-549 | marking one node of the last segment's path keeps it, also while other goroutines climb |
| `BmtSteps.RoutineKeeps` | bmt/bmt.go:440-492 | every step of a goroutine keeps it |
| `BmtSteps.CallerKeeps` | bmt/bmt.go:291-371 | every step of the caller before release keeps it |
| `BmtRuns.StepKeeps` | bmt/bmt.go:423-492 | every atomic step of the caller or of a goroutine keeps the protocol invariant or finishes, and lowers the number of steps left |
| `BmtRuns.NotStuck` | bmt/bmt.go:461-492 | in every reachable unfinished state some step is enabled |
| `BmtRuns.RunKeeps` | bmt/bmt.go:291-492 | every run from a clean tree stays within the invariant and is bounded in length |
| `BmtRuns.ReleaseFinishes` | bmt/bmt.go:423-438 | releasing the tree after the result came leaves every goroutine gone, every flag cleared and every used two-child toggle advanced by exactly two |
| `BmtRuns.EveryRunHashes` | bmt/bmt.go:291-317 | every interleaving ends; when nothing can move, exactly one result was received, it is the tree's hash, and the tree is settled |
| `BmtRef.HalveFinds` | bmt/bmt_r.go:67-85 | halving finds the largest span below the length |
| `BmtRef.ValueIsRef` | bmt/bmt_r.go:67-85 | the value computed at each node of the tree is the reference hash of the bytes below it |
| `BmtRef.ResultIsRef` | bmt/bmt_r.go:59-65 | the concurrent hasher's value is the reference hash of the whole chunk, also on the unbalanced right edge |
| `BmtRef.Write` | bmt/bmt.go:332-371 | a chunk is cut into full double segments and one last part, together the chunk up to the capacity |
| `BmtRef.Launch` | bmt/bmt.go:352-367 | every segment but the last is full and gets a leaf of its own |
| `BmtRef.Depth` | bmt/bmt.go:519-524 | the tree is exactly deep enough for its leaves |
| `BmtRef.NewRefHasher` | bmt/bmt_r.go:39-55 | the span is a segment size doubled often enough that twice it covers the capacity |
| `BmtRef.NewJob` | bmt/bmt.go:332-371 | one write to a fresh hasher sets up a job whose segments are the chunk |
| `BmtRef.HashersAgree` | bmt/bmt.go:291-317 | every complete run on a clean tree delivers the reference hash of the chunk and settles the tree |
| `BmtReuse.CleanAgain` | bmt/bmt.go:423-438 | after release every toggle is even and every flag is cleared; the tree is clean again if and only if no used toggle stood at 0x7ffffffe |
| `BmtReuse.ToggleTellsApart` | bmt/bmt.go:507-509 | the toggle tells two goroutines apart if and only if its even value is not negative, since Go's remainder of a negative number is never 1 |
| `BmtReuse.UsesWear` | bmt/bmt.go:423-438 | through any sequence of chunks on one tree each toggle is twice the number of chunks in which two goroutines met at its node, until it wraps |
| `BmtReuse.ReuseBudget` | bmt/bmt.go:179-184 | a tree given back after any sequence of chunks, each interleaved in any way, is reusable if and only if at no node two goroutines met in more than 2^30 - 1 chunks; the last chunk was hashed rightly |
| `BmtReuse.EveryUseHashes` | bmt/bmt.go:179-184 | each of up to 2^30 chunks hashed one after the other on a new tree delivers its own hash, and after fewer the tree is reusable |
| `BmtReuse.FirstWearsMost` | bmt/bmt.go:461-485 | no node is met at more often than the first one above the leaves, so a worn tree is worn there |
| `BmtReuse.WornDelivers` | bmt/bmt.go:440-492 | on a tree of any depth whose first node has a negative toggle, every chunk of two full segments has a run that delivers the hash of the first segment alone, before the second is even started |
| `BmtReuse.WornExactly` | bmt/bmt.go:179-184 | after any sequence of chunks the tree hashes every further chunk rightly in every interleaving if and only if at no node two goroutines have met in more than 2^30 - 1 chunks |
| `Headers.WalkIsAncestor` | core/headerchain.go:322-352 | walking k parents reaches the ancestor k numbers below |
| `Headers.AncestorOfAncestor` | core/headerchain.go:322-352 | ancestors of ancestors are ancestors |
| `HeaderChain.HeaderChain.constructor` | core/headerchain.go:72-108 | a chain with only a genesis header |
| `HeaderChain.HeaderChain.DeleteAbove` | core/headerchain.go:160-167 | removes exactly the canonical entries above the new head's number; ends at the first gap |
| `HeaderChain.HeaderChain.Overwrite` | core/headerchain.go:169-183 | rewrites stale entries down to the common ancestor, ends, and leaves exactly the new head's ancestor path |
| `HeaderChain.HeaderChain.WriteHeader` | core/headerchain.go:133-202 | the canonical index is exactly the head's ancestor path with nothing above, every stored total difficulty is the sum along the ancestry, the head changes exactly when the rule says so, and its total difficulty never falls |
| `HeaderChain.HeaderChain.Import` | core/headerchain.go:266-292 | the same over every run of writes |
| `HeaderChain.HeaderChain.GetAncestor` | core/headerchain.go:322-352 | a non-zero answer is the naive parent walk, and there is one if and only if no more headers than the budget lie between the start and the canonical chain, or a single step is asked for; exactly those are taken from the budget |
| `HeaderChain.HeaderChain.Advance` | eth/handler.go:353-386 | in hash mode there is a next origin if and only if, towards the genesis, skip+1 neither overflows nor passes the genesis and the links off the canonical chain are within the budget, or, towards the head, the number does not overflow, is canonical and so is the origin; it is exactly skip+1 links away on one ancestor line |
| `HeaderChain.HeaderChain.Forward` | eth/handler.go:366-386 | towards the head the next canonical header is taken exactly if the origin is canonical, and costs nothing |
| `HeaderChain.HeaderChain.GetBlockHeaders` | eth/handler.go:321-399 | a hash-mode reply starts at the origin, each header is skip+1 links from the one before on one ancestor line, and it is shorter than the limit only if the origin is unknown or its last header has no next within what is left of the budget of 100; a number-mode reply lists canonical headers until the limit or the first missing one |
| `HeaderChain.NumberGap` | eth/handler.go:387-398 | in number mode consecutive headers are skip+1 apart if and only if that step does not overflow |
| `HeaderChain.SkipOverflowRepeats` | eth/handler.go:387-398 | in number mode a skip of 2^64 - 1 repeats the same header |
| `HeaderChain.SkipOverflowFills` | eth/handler.go:321-399 | and the reply is then filled up to its limit |
| `BlockChain.ForkIsDeepest` | core/blockchain.go:1402-1420 | two heads share exactly the ancestors up to their fork |
| `BlockChain.WhereBranch` | core/blockchain.go:1433-1456 | a transaction is found above the fork if and only if it is on the branch |
| `BlockChain.ReindexOk` | core/blockchain.go:1433-1456 | removing the old branch's transactions that the new one lacks and adding the new one's makes the lookup that of the new head |
| `BlockChain.WriteTxLookupEntries` | core/rawdb/accessors_indexes.go:64-71 | exactly the block's transactions are mapped to its number |
| `BlockChain.BlockChain.constructor` | core/blockchain.go:429-448 | a chain with only a genesis block |
| `BlockChain.BlockChain.FindFork` | core/blockchain.go:1380-1420 | collects exactly the new branch's blocks and the old branch's transactions down to the deepest common ancestor |
| `BlockChain.BlockChain.LowerOld` | core/blockchain.go:1381-1388 | steps the longer old chain down to the new one's number |
| `BlockChain.BlockChain.LowerNew` | core/blockchain.go:1389-1394 | steps the longer new chain down to the old one's number |
| `BlockChain.BlockChain.Insert` | core/blockchain.go:507-523 | the block becomes canonical at its number and the head |
| `BlockChain.BlockChain.Reorganise` | core/blockchain.go:1353-1456 | canonical entries up to the new head are its ancestor path, the lookup maps exactly that path's transactions, and the difference is what the old branch has and the new one lacks |
| `BlockChain.BlockChain.WriteBlock` | core/blockchain.go:910-1016 | both hold after every block written, and the head changes exactly when the rule says so |
| `PoolReset.RewindMain` | core/tx_pool.go:482-491 | a longer new chain is rewound to the old head's number and its transactions gathered; the fork stays the same |
| `PoolReset.RewindBranch` | core/tx_pool.go:492-503 | a longer old chain is rewound to the new head's number, and what the new one lacks gathered |
| `PoolReset.Reinject` | core/tx_pool.go:461-528 | unless the heads are more than 64 apart, the reinjected set is the one the chain's reorganisation computes |
| `SortedMap.ListsIsOne` | core/tx_list.go:309-318 | the items of a map have one listing by nonce |
| `SortedMap.PlacedLists` | core/tx_list.go:70-76 | putting a transaction keeps the listing in nonce order, replacing one of the same nonce |
| `SortedMap.RootIsFirst` | core/tx_list.go:81-95 | the root of the heap is the lowest listed nonce |
| `SortedMap.TxSortedMap.constructor` | core/tx_list.go:56-61 | an empty map, heap and cache |
| `SortedMap.TxSortedMap.Put` | core/tx_list.go:70-76 | the heap holds exactly the map's nonces and the cache is dropped; the listing has the transaction in its place |
| `SortedMap.TxSortedMap.Forward` | core/tx_list.go:81-95 | removes exactly the nonces below the threshold, in order, from map, heap and cache |
| `SortedMap.TxSortedMap.FilterStrict` | core/tx_list.go:100-129 | removes the first match and hands over everything above it, both looked up in the cache, which is the listing unless the map was emptied and left it behind |
| `SortedMap.TxSortedMap.FilterLoose` | core/tx_list.go:131-150 | removes exactly the matches |
| `SortedMap.TxSortedMap.Filter` | core/tx_list.go:99-151 | strict or not, map and heap agree afterwards, and a right cache stays right |
| `SortedMap.TxSortedMap.Cap` | core/tx_list.go:155-178 | keeps the lowest nonces up to the threshold and removes the others from the highest down |
| `SortedMap.TxSortedMap.Remove` | core/tx_list.go:182-222 | removes the nonce, and when strict everything above it, which is handed over |
| `SortedMap.TxSortedMap.RemoveIndex` | core/tx_list.go:198-203 | finds the nonce in the heap and takes exactly it out |
| `SortedMap.TxSortedMap.Ready` | core/tx_list.go:230-262 | hands over the maximal run of consecutive nonces if the lowest is at most start; a right cache becomes stale exactly when it is used up entirely |
| `SortedMap.TxSortedMap.ReadyByHeap` | core/tx_list.go:235-243 | the heap path hands over the maximal run |
| `SortedMap.TxSortedMap.ReadyByCache` | core/tx_list.go:244-261 | the cached path hands over the maximal run |
| `SortedMap.RunIsOne` | core/tx_list.go:230-262 | a listing has one maximal run, so both paths hand over the same |
| `SortedMap.TxSortedMap.EnsureCache` | core/tx_list.go:309-318 | the cache becomes the listing unless there is one already |
| `SortedMap.TxSortedMap.Flatten` | core/tx_list.go:272-278 | returns the cache, which is the listing unless the map was emptied and left it behind |
| `SortedMap.TxSortedMap.ForLast` | core/tx_list.go:282-300 | removes exactly the last n and hands over the last n of the cache |
| `SortedMap.TxSortedMap.TakeBack` | core/tx_list.go:289-299 | what the cache holds from a place on leaves map, heap and cache |
| `SortedMap.TxSortedMap.Last` | core/tx_list.go:304-307 | returns the highest nonce's transaction |
| `TxList.NothingToFilter` | core/tx_list.go:396-400 | with the caps as bounds, the full filter would remove nothing, strict or not |
| `TxList.TxList.constructor` | core/tx_list.go:334-340 | an empty list with zero caps |
| `TxList.TxList.Add` | core/tx_list.go:353-368 | accepts unless a transaction of the same nonce is not outbid by the price bump; the caps bound every listed transaction |
| `TxList.TxList.Insert` | core/tx_list.go:370-378 | the caps grow with what is put in |
| `TxList.TxList.Filter` | core/tx_list.go:396-408 | the result is that of the full filter whether or not the caps cut it short, and the caps still bound the list; what a strict filter hands over is read off the cache, also a stale one |
| `TxList.TxList.Forward` | core/tx_list.go:383-385 | removes exactly the nonces below the threshold; the caps still bound the list |
| `TxList.TxList.Cap` | core/tx_list.go:412-414 | keeps the lowest and hands over the others from the highest down; the caps still bound the list |
| `TxList.TxList.Remove` | core/tx_list.go:419-421 | removes by nonce as the list's strictness says; the caps still bound the list |
| `TxList.TxList.Ready` | core/tx_list.go:429-431 | hands over the maximal run if the lowest nonce is at most start, and says exactly when the cache is right afterwards |
| `TxList.TxList.ForLast` | core/tx_list.go:452-454 | removes and hands over exactly the last n of a list that is not empty |
| `TxList.TxList.Drop` | core/tx_pool.go:1200-1216 | forwarding and filtering drop exactly what is stale or too expensive |
| `TxList.TxList.Take` | core/tx_pool.go:1235-1252 | hands over what is ready and then exactly what is over the limit |
| `TxList.TxList.Promote` | core/tx_pool.go:1188-1258 | forward, filter, hand over, cap: the list keeps exactly what is allowed of the rest, everything else is handed over or removed, and only a list that is discarded can be left with a stale cache |
| `PoolLists.AddSound` | core/tx_pool.go:831-872 | a new transaction replaces in pending or else enters the queue; lookup and lists stay in step and share no nonce |
| `PoolLists.PromotesOne` | core/tx_pool.go:921-949 | a transaction taken from the queue never meets one of the same nonce in pending |
| `PoolLists.DemotesBack` | core/tx_pool.go:1380-1443 | returning the upper part of pending to the queue hits no queued transaction |
| `PoolLists.FoundByNonce` | core/tx_pool.go:1125-1164 | removal by nonce finds the very transaction |
| `PoolLists.RunLengthIsMaximal` | core/tx_list.go:230-262 | the number handed over is that of the maximal run |
| `PoolLists.PromotedContiguous` | core/tx_pool.go:1235-1235 | promoted nonces continue the pending ones |
| `PoolLists.DemotedSound` | core/tx_pool.go:1380-1443 | demotion keeps lookup and lists in step |
| `PoolLists.DemotedContiguous` | core/tx_pool.go:1397-1442 | a contiguous list is contiguous from the new state nonce after demotion, whatever the new nonce, balance and gas limit |
| `Reinjection.PutRun` | core/tx_pool.go:1218-1235 | a run promoted into a gap of pending fills it in order |
| `Reinjection.ReadyRun` | core/tx_pool.go:1235-1235 | what is ready at the state nonce is the nonces from there up to the first that is missing |
| `Reinjection.ReinjectionGap` | core/tx_pool.go:549-574 | after a run from the new state nonce was promoted into a contiguous list, demotion leaves a contiguous list if and only if there is no run, no old list, no step back, the run reaches the old list, or an unpayable transaction cuts it off before or at its first one |
| `Reinjection.ReadyCovers` | core/tx_pool.go:1235-1235 | what is ready has k transactions exactly if the k nonces from the state nonce are there |
| `Reinjection.TrimmedGap` | core/tx_pool.go:549-574 | with any number of trims in between, the account ends in order if and only if, when the state nonce steps back, there is no run, the old list is trimmed away, the run reaches it or its first transaction cannot be paid, and otherwise no transaction below the state nonce is trimmed; out of order it is behind the state nonce or lacks a nonce |
| `Reinjection.RejectedMiddle` | core/tx_pool.go:549-574 | nonces 5 to 7 pending, the state back at 3 and 3 reinjected without 4: 4 is missing |
| `PoolCount.SizeIsTotal` | core/tx_pool.go:648-658 | the lookup has as many transactions as all pending and queued lists together |
| `PoolCount.Count` | core/tx_pool.go:1304-1307 | the loop's count is the total |
| `PoolState.AddedSound` | core/tx_pool.go:831-872 | adding to all accounts keeps the lookup the disjoint union of both pools, with no nonce in both |
| `PoolState.AddedCell` | core/tx_pool.go:831-872 | an addition fills the place of its sender and nonce and no other |
| `PoolState.RemoveStep` | core/tx_pool.go:1130-1155 | removing a pending transaction keeps lookup and pools in step |
| `PoolMoves.ListPromotes` | core/tx_pool.go:1188-1258 | what the list class hands over and keeps is what is due and what is allowed of the rest |
| `PoolMoves.MovesOn` | core/tx_pool.go:1176-1185 | an account's promotion depends on its own lists and nonce only, so the order of accounts does not matter |
| `PoolMoves.DueMoves` | core/tx_pool.go:1188-1235 | what a promotion moves is queued, current, payable and new to pending |
| `PoolMoves.PromotionQuiets` | core/tx_pool.go:1188-1258 | after promotion nothing stale, unaffordable, due at the virtual nonce or over the account limit is left in the account's queue |
| `PoolMoves.PromotedInOrder` | core/tx_pool.go:1235-1235 | promotion keeps an account's pending nonces contiguous up to the new virtual nonce |
| `PoolMoves.HoleStays` | core/tx_pool.go:1167-1172 | a missing nonce below pending ones that no payable transaction has stays missing through promotion |
| `PoolMoves.BehindStays` | core/tx_pool.go:1167-1172 | an account with nothing pending and a virtual nonce below its state nonce stays so through promotion, whatever is queued |
| `PoolMoves.TrimsOn` | core/tx_pool.go:1363-1373 | any sequence of trims leaves each account a front part of its list and the virtual nonce of the lowest one trimmed |
| `PoolMoves.MovedCurrent` | core/tx_pool.go:1167-1172 | after a demotion and a promotion of all accounts nothing in the pool is below its sender's state nonce |
| `PoolMoves.DemoteStep` | core/tx_pool.go:1380-1443 | demotion of one account keeps lookup and pools in step |
| `PoolMoves.SettledInOrder` | core/tx_pool.go:545-571 | with nothing reinjected, contiguous pending lists are contiguous from the new state's nonces and the virtual nonces follow |
| `PoolOffers.CellsTake` | core/tx_pool.go:1041-1056 | after each offer of a batch, a sender's nonce holds what it did or something payable, the latter only if that was there or an admissible offer outbid what was there, and exactly then if the pool has room for the batch; the dirty accounts are those with a new nonce |
| `PoolOffers.CellsRefuse` | core/tx_pool.go:1041-1056 | the same for an offer that is refused |
| `PoolOffers.OffersDecide` | core/tx_pool.go:549-574 | whether an account ends in order is decided by the batch, the trims and what was in the pool before, exactly if the pool has room for the batch |
| `PoolOffers.GapWithoutTrims` | core/tx_pool.go:549-574 | without trims and with room, the accounts that end out of order are those whose new state nonce and first pending nonce are filled while a nonce between them is not |
| `PoolOffers.BrokenIsStuck` | core/tx_pool.go:549-574 | an account that ends out of order is behind its state nonce or lacks a nonce that no payable transaction in the pool has |
| `PoolOffers.ResetDecides` | core/tx_pool.go:545-574 | after reinjection, trims, demotion, new nonces and promotion an account that is to stay in order is, and if the pool has room for the batch no other is |
| `TxPool.Pool.constructor` | core/tx_pool.go:251-295 | a new pool is empty |
| `TxPool.Pool.ReplacePending` | core/tx_pool.go:833-857 | a pending transaction is replaced exactly when outbid |
| `TxPool.Pool.EnqueueTx` | core/tx_pool.go:880-899 | the queue takes the transaction exactly when it outbids any queued one of the same nonce |
| `TxPool.Pool.Add` | core/tx_pool.go:809-875 | accepts exactly unknown, valid transactions while the pool is not full and any prior of the same nonce is outbid; a refusal changes nothing; the total never exceeds the limit |
| `TxPool.Pool.PromoteTx` | core/tx_pool.go:921-949 | puts the transaction in pending, replacing only an outbid one, and moves the virtual nonce past it |
| `TxPool.Pool.DropUnexecutable` | core/tx_pool.go:1188-1216 | drops exactly stale and unaffordable queued transactions |
| `TxPool.Pool.PromoteFirst` | core/tx_pool.go:1218-1235 | moves the first queued transaction to pending without touching the lookup |
| `TxPool.Pool.PromoteReady` | core/tx_pool.go:1218-1235 | moves exactly the maximal run from the virtual nonce |
| `TxPool.Pool.LimitQueue` | core/tx_pool.go:1237-1257 | keeps the lowest nonces up to the account limit, all for local accounts, and deletes an empty entry |
| `TxPool.Pool.PromoteExecutable` | core/tx_pool.go:1188-1258 | one account's promotion in full, and nothing of any other account |
| `TxPool.Pool.PromoteAccounts` | core/tx_pool.go:1176-1185 | exactly the given accounts are promoted, the others untouched; pending stays contiguous and their queues are left with nothing due |
| `TxPool.Pool.RemovePending` | core/tx_pool.go:1130-1155 | takes out the transaction, returns those above to the queue and sets the virtual nonce back |
| `TxPool.Pool.RemoveTx` | core/tx_pool.go:1125-1164 | takes out exactly the known transaction, from pending or else from the queue |
| `TxPool.Pool.TrimPending` | core/tx_pool.go:1363-1373 | drops the highest pending transaction of a non-empty list and sets the virtual nonce back |
| `TxPool.Pool.Evict` | core/tx_pool.go:357-373 | an inactive account's queue leaves queue and lookup together |
| `TxPool.Pool.Demote` | core/tx_pool.go:1380-1443 | one account's demotion in full: old and first unaffordable transactions leave, later ones return to the queue, and a list without the state nonce returns entirely |
| `TxPool.Pool.DemoteUnexecutables` | core/tx_pool.go:1380-1443 | pending and queue of every account are those of its demotion and no empty list is left |
| `TxPool.Pool.SetNonces` | core/tx_pool.go:568-571 | every account with pending transactions continues after its last one |
| `TxPool.Pool.PromoteAll` | core/tx_pool.go:1167-1172 | every account with a queue is promoted and no queue is left with anything stale, unaffordable, due or over the limit |
| `TxPool.Pool.DropSome` | core/tx_pool.go:1320-1341 | an account's queued transactions go, or as many of the last as are over the limit |
| `TxPool.Pool.DropLast` | core/tx_pool.go:1336-1340 | exactly the last n queued transactions go |
| `TxPool.Pool.LimitQueues` | core/tx_pool.go:1303-1342 | afterwards the queue is within its limit or only local accounts are left in it; local queues are untouched and others keep a front part |
| `TxPool.Pool.AddTx` | core/tx_pool.go:980-1008 | accepts exactly what Add accepts; a refusal changes nothing, a replacement only replaces, and a new transaction is queued and exactly its account promoted; pending stays contiguous |
| `TxPool.Pool.AddNext` | core/tx_pool.go:1041-1051 | one transaction of a batch |
| `TxPool.Pool.AddAll` | core/tx_pool.go:1036-1052 | a batch leaves pending nonces as they were; what each sender's nonce holds, and which accounts are dirty, is read off the batch and the pool before |
| `TxPool.Pool.AddTxs` | core/tx_pool.go:1036-1066 | a batch is added and then exactly the accounts with a new nonce promoted; pending stays contiguous and their queues are left with nothing due |
| `TxPool.Pool.FinishPromotion` | core/tx_pool.go:1260-1343 | each pending list loses as many of its last transactions as it is trimmed, and its virtual nonce is set back with them; then the queue limit holds; both invariants are kept |
| `TxPool.Pool.Reinject` | core/tx_pool.go:1069-1094 | pending is what the batch, the promotion of its accounts and, if any is dirty, the trims make of it |
| `TxPool.Pool.ResetTo` | core/tx_pool.go:444-580 | a reset keeps the pool sound and leaves nothing stale, unaffordable or due in a queue; without reinjection pending stays contiguous; with it, whatever is trimmed, an account stays in order under a condition on the arguments and the pool before, and if the pool has room for the batch only under it |
| `TxPool.FailingReset` | core/tx_pool.go:545-574 | nonce 5 pending, the state back at 3, 3 reinjected and 4 unaffordable: a valid pool is left with a gap in pending |
| `TxPool.TrimmedReset` | core/tx_pool.go:545-574 | nonces 3 and 4 pending, the state on to 5, another account's transaction reinjected and the list trimmed meanwhile: the virtual nonce is left below the state nonce |
| `TxPool.AllDecided` | core/tx_pool.go:545-574 | all accounts are in order after a reset if all stay so, and if the pool has room for the batch only then |
| `TxPool.Pool.NoneBreaks` | core/tx_pool.go:545-574 | a reset that reinjects nothing leaves every account in order |
| `TxPool.Pool.Step` | core/tx_pool.go:300-385 | every event, batches included, keeps the pool sound and contiguous unless it is a reset after which an account may not be; with room for its batch such a reset does break it |
| `TxPool.Pool.Run` | core/tx_pool.go:809-1443 | in every run the lookup is the disjoint union of both pools, no account has a nonce in both, the total is within the limit, nothing is below its state nonce and, unless a reset with reinjection may break it, pending nonces run from the state nonce to the virtual nonce |
| `ChainIndexer.NextHead` | core/chain_indexer.go:303-306 | a processed section on top of the stored ones extends the line of section heads |
| `ChainIndexer.DownToZero` | core/chain_indexer.go:341-370 | the newest stored head is stored times section size parent links above the zero hash |
| `ChainIndexer.ChainIndexer.constructor` | core/chain_indexer.go:397-402 | continues from a persisted count and heads that agree |
| `ChainIndexer.ChainIndexer.SetValidSections` | core/chain_indexer.go:405-419 | left alone, the persisted count is the stored count and exactly the heads from it up to the old stored count are removed |
| `ChainIndexer.ChainIndexer.NewHead` | core/chain_indexer.go:221-260 | a reorganisation takes back known sections to the changed one, begins to take back stored ones above it or else tells children; otherwise known sections only grow with confirmed blocks |
| `ChainIndexer.ChainIndexer.BeginNotice` | core/chain_indexer.go:233-236 | a notice begins its writes, beside those of a failing reset or alone |
| `ChainIndexer.ChainIndexer.WriteNotice` | core/chain_indexer.go:405-419 | one write of a notice keeps the invariant, also between writes of a failing reset where that is safe |
| `ChainIndexer.ChainIndexer.ContinueNotice` | core/chain_indexer.go:233-246 | after its last write children hear of the block it went back to |
| `ChainIndexer.ChainIndexer.Begin` | core/chain_indexer.go:278-297 | remembers the next section and the head it must build on |
| `ChainIndexer.ChainIndexer.ProcessHeader` | core/chain_indexer.go:351-363 | goes on exactly when the canonical header read now has the right number and parent |
| `ChainIndexer.ChainIndexer.ResetFails` | core/chain_indexer.go:346-349 | a refused section begins to forget all sections without the lock |
| `ChainIndexer.ChainIndexer.ContinueReset` | core/chain_indexer.go:405-419 | one unlocked write keeps the invariant, also between writes of a notice where that is safe |
| `ChainIndexer.ChainIndexer.OverlapDecides` | core/chain_indexer.go:341-349 | when a failing reset and a reorganisation notice overlap, some order of their writes leaves count, stored sections and heads in disagreement if and only if the notice keeps a section or more than the first head is stored |
| `ChainIndexer.ChainIndexer.StillTop` | core/chain_indexer.go:289-304 | comparing the remembered head with the stored one finds out exactly whether a reorganisation took sections away meanwhile |
| `ChainIndexer.ChainIndexer.Commit` | core/chain_indexer.go:301-332 | the section is stored exactly when it was processed and committed and nothing below it went away; otherwise known falls back to stored |
| `ChainIndexer.ChainIndexer.Store` | core/chain_indexer.go:303-317 | the section's head and the new count are stored, on the section it was built on |
| `ChainIndexer.ChainIndexer.TimerFires` | core/chain_indexer.go:325-331 | a rescheduled update is delivered |
| `ChainIndexer.ChainIndexer.Handle` | core/chain_indexer.go:264-349 | every event keeps all invariants, also that a wake-up is outstanding when sections wait, until an unsafe overlap begins, and says exactly when one does |
| `ChainIndexer.ChainIndexer.Run` | core/chain_indexer.go:221-370 | through every interleaving of the writes of notices with unlocked processing and resetting, unless an unsafe overlap began, heads are stored exactly below the stored count, the persisted count agrees, and each head reaches the one below in exactly section-size parent links, down to the zero hash, whenever no call is under way; no overlap begins without both a failing reset and a reorganisation |
| `SectionRace.Ends` | core/chain_indexer.go:405-419 | a call left alone ends from any state, with its own number stored, and its count if that was still to be written |
| `SectionRace.CrossedWrites` | core/chain_indexer.go:405-419 | if the later of two calls runs between the first and the last write of the earlier, the count is the later's and the stored number the earlier's |
| `SectionRace.StolenRemoval` | core/chain_indexer.go:411-417 | a decrement between the other call's decrement and removal leaves a head behind |
| `SectionRace.SkippedRemoval` | core/chain_indexer.go:411-417 | two decrements before either removal leave a head behind |
| `SectionRace.CalmPlays` | core/chain_indexer.go:405-419 | two calls that forget everything, with at most the first head stored, keep their invariant in every order of writes |
| `SectionRace.UnsafeBreaks` | core/chain_indexer.go:341-349 | every other overlap has an order of writes that ends in disagreement |
| `SectionRace.OverlapIsSafe` | core/chain_indexer.go:341-349 | every order of the writes of two overlapping calls ends in agreement if and only if the notice takes everything back and no head but the first is stored |
| `SectionRace.LostSection` | core/chain_indexer.go:341-349 | three sections stored, a notice back to one and a failing reset: the count ends at 0 with one section stored |
| `Distributor.AskPeers` | les/distributor.go:193-213 | a request can be sent exactly if some peer not taken yet can serve it; the best wait and the immediate offers are kept |
| `Distributor.Distributor.constructor` | les/distributor.go:74-86 | nothing queued, no wake-up |
| `Distributor.Distributor.Queue` | les/distributor.go:233-260 | the queue stays strictly sorted, a new request comes last, the caller gets a fresh open channel and a wake-up is outstanding |
| `Distributor.Distributor.NewOrder` | les/distributor.go:237-240 | a new order is above all others |
| `Distributor.Distributor.Append` | les/distributor.go:237-247 | a request without an order comes last |
| `Distributor.Distributor.Place` | les/distributor.go:242-251 | everything before the place is earlier, everything after later |
| `Distributor.Distributor.Insert` | les/distributor.go:242-259 | the request is inserted in its place with its own channel |
| `Distributor.Distributor.Leave` | les/distributor.go:279-285 | leaving the queue closes the request's channel, once and after at most one peer |
| `Distributor.Distributor.Cancel` | les/distributor.go:265-276 | succeeds exactly for a queued request, whose channel is closed empty |
| `Distributor.Distributor.NextRequest` | les/distributor.go:178-227 | gives up exactly front requests no peer can serve, returns nothing only if that emptied the queue, and otherwise a peer that can serve the request after the returned wait, never longer than the front request's shortest |
| `Distributor.Distributor.Turn` | les/distributor.go:130-157 | sends one request to a peer that takes it at once, or arranges a wake-up if any wait |
| `Distributor.Distributor.Distribute` | les/distributor.go:114-162 | a round of the loop ends with a wake-up outstanding or an empty queue; closed channels stay as they are |
| `Distributor.Distributor.Receive` | les/distributor.go:126-127 | the loop takes the one signal |
| `Distributor.Distributor.SleeperWakes` | les/distributor.go:152-155 | a sleeping wake-up is delivered without blocking |
| `Distributor.Distributor.Step` | les/distributor.go:114-285 | every event keeps all invariants and never touches a closed channel |
| `Distributor.Distributor.Run` | les/distributor.go:114-285 | in every run before stop the queue is strictly sorted, a request is queued exactly while its channel is open, each channel carries at most one peer and is closed at most once, and a waiting request always has exactly one wake-up outstanding |
| `Gas.IntrinsicGas` | core/state_transition.go:79-109 | the base and data cost, or an error exactly when the true sum does not fit 64 bits |
| `Gas.GasPool.AddGas` | core/gaspool.go:29-35 | adds; the caller must not overflow 64 bits |
| `Gas.GasPool.SubGas` | core/gaspool.go:39-45 | subtracts exactly when enough is there |
| `Gas.GasPool.constructor` | core/state_processor.go:63-63 | the pool starts with the block's gas limit |
| `Gas.StateTransition.BuyGas` | core/state_transition.go:152-165 | succeeds exactly when balance and pool suffice and takes gas times price from the sender; a failure changes nothing |
| `Gas.StateTransition.PreCheck` | core/state_transition.go:167-178 | succeeds exactly when also the nonce is right |
| `Gas.StateTransition.RefundGas` | core/state_transition.go:232-247 | refunds at most half of the used gas, pays the rest back to the sender and returns it to the pool without overflow |
| `Gas.StateTransition.Settle` | core/state_transition.go:224-229 | used gas is at most the message's gas and at least half of what was spent; the sender and the coinbase get their parts |
| `Gas.MessageConserves` | core/state_transition.go:183-230 | the total of balances is conserved before Darvaza and falls by exactly used gas times price from it on |
| `Gas.StateTransition.TransitionDb` | core/state_transition.go:183-230 | pool gas plus used gas is what the pool had, used gas is between half the intrinsic cost and the message's gas, balances are conserved up to the fee, and a payable message fails only if its value cannot be transferred |
| `Gas.ReceiptAdded` | core/state_processor.go:94-135 | cumulative gas is the sum of the receipts so far |
| `Gas.Process` | core/state_processor.go:55-88 | for every list of messages processed without error, gas left in the pool plus used gas is the block's limit, every receipt is right, and the balances grow by the block reward less all fees from Darvaza on |
| `Gas.Finalize` | consensus/clique/gochain.go:15-17 | the coinbase gets the block reward and nothing else changes |

## Left out

- SortedMap.RunIsOne: follows from the definition of a maximal run; it is stated to tie the two paths of Ready together.
- TxPool.Pool.FinishPromotion: does not model which pending lists the equalisation trims, nor that it ends within the account allowance, because the newest offender is trimmed below its own length too (core/tx_pool.go:1285-1293); each trim takes a non-empty list.
- TxPool.Pool.ResetTo: when the pool has no room for the batch, the condition for order is sufficient only; which transactions are then accepted depends on their order.
- TxPool.Pool.AddAll: of several good offers for one nonce it does not say which is held in the end.
- BlockChain.BlockChain.Insert: does not model the head-header and fast-block pointers, and states nothing about canonical entries above a new, lower head, which the code does not clear.
- Table.Table.CompactSegment: a failure to write leaves the segment as it was; I/O failures halfway through, open-segment caching and the semaphore are not modelled.
- ChainIndexer.ChainIndexer.NewHead: children are the notifications they are sent; a child is another indexer to which the same results apply. AddKnownSectionHead is not modelled.
- Distributor.Distributor.Queue: a request that is queued while it is queued would be in the queue twice; the callers wait until it has left.
- ChainIndexer.ChainIndexer.constructor: a database that a crash left between two writes of setValidSections is not modelled.
- Distributor.Distributor.Run: covers the time before stop; weighted random selection is any choice among the peers that can be sent to at once.
- Pool lists in place: the pool holds lists as values, so aliasing of list objects between the pool's maps is not captured.
- tableBatch: it compares with the table and not with earlier writes of the batch.
- SetHead, fast sync, future blocks, trie garbage collection and state commitment.
- The transaction journal, price limits, event feeds and metrics.
- Files, memory maps, LevelDB, RPC, networking, accounts and cryptography.
- les/fetcher.go, eth/sync.go and the other light-client code.
