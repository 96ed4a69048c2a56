# A verified model of the in-memory join engine

The repository executes join plans over columnar tables: 8192-byte pages in, parallel partitioned
hash joins, 8192-byte pages out. This project models the parts that carry the risk and proves what
the rest of the engine relies on.

* **Joins** (`WorkQueue`, `SlabAllocator`, `Directory`, `HashIndex`, `MergePhase`, `Interference`,
  `UnchainedMap`, `ParallelBuild`, `HashJoin`, `BuildPhase`, `ProbePhase`, `JoinRun`,
  `ColumnStore`, `Relational`, `PlanInputs`, `PlanExecution`, `PlanMeaning`, `PlanRun`). The 32
  workers of a phase are steps over a shared state and a run is any schedule of worker numbers;
  the phases are separated by the join of all threads. The hash is any function to 64 bits, the
  bucket count any power of two from 32 to 2^58, the tag table any 2048 words. The workers are
  also run on the collectors, the map and the result columns themselves, step by step against the
  abstract phases. The result is the nested-loop join as a bag, and a plan yields the rows its
  tree means over the cells of its input tables.
* **Open-addressing tables** (`OpenAddressing`, `RobinHood`; `HopscotchTable`,
  `HopscotchCrowding`, `HopscotchGrowth`, `Hopscotch`; `CuckooWalk`, `Cuckoo`, `CuckooAttempts`,
  `CuckooRehash`, `CuckooHashers`, `CuckooLimits`, `CuckooTraps`, `CuckooChains`, `CuckooKeys`,
  `CuckooLosses`). Besides what every operation keeps: which inserts return, and which are exact.
* **Pages** (`PageFormat`, `FixedPages`, `VarcharPages`, `PageBytes`, `ColumnInserter`,
  `StringInserter`, `Values`, `TableScan`, `StringRefs`). Pages are sequences of bytes; header
  words, bitmap bits and end offsets are written and read as the code does it, and what is on a
  page is said in numbers, byte by byte.
* **CSV** (`CsvSpec`, `CsvChunks`, `CsvParser`, `CsvRoundTrip`, `CsvFormats`). The parser with its
  lookahead across buffers is proved against an automaton that never looks ahead, with and without
  trailing commas.
* **Filters** (`ThreadPool`, `Bitmaps`, `InnerColumns`, `ParallelKernel`, `Statements`,
  `Selection`). The comparison kernels run between the steps of the thread pool.

`Arith`, `Bags` and `Options` hold arithmetic, bag and sequence facts and the option type.

## What the code does not do

Some promises hold only under a condition. The model keeps the code as it is, proves the
condition, and names an input where the promise fails.

* `HashMapCuckoo::emplace` loses pairs. An attempt is exact if and only if the walk over the slots
  finds a free one within 512 kicks (`CuckooAttempts.FirstTryStoresWhen`), which with fewer than
  256 pairs means that the new pair's slots do not lie in a set of slots full of pairs that have
  both slots in it (`CuckooAttempts.SmallTableStoresWhen`). Otherwise the carried pair is dropped
  and the new one is inserted again after a rehash (`Cuckoo.ExactWhen`): a map of the default
  capacity that gets the keys 7, 23 and 71 no longer finds 7 (`CuckooLimits.KeyIsLost`).
* `HashMapCuckoo::emplace` does not return when an attempt meets a trapped key, one whose two
  hashes are among hash values with as many stored pairs; with fewer than 256 pairs it returns
  otherwise (`CuckooTraps.ReturnsWhen`). With the code's own hash functions a key is trapped
  exactly when both of its slots hold a pair of that very key (`CuckooLimits.TrappedByTwo`), so a
  third pair of one key is never stored, nor is a pair two of whose attempts have dropped others
  (`CuckooLimits.TwoFailuresAreFinal`). In larger tables a trapped key is not stored either, as
  long as each rehash completes in one pass (`CuckooTraps.TrappedNeverReturns`).
* A rehash keeps the contents when its first pass completes (`Cuckoo.FirstPassKeeps`), as it does
  with up to 256 pairs (`CuckooRehash.PassNeverFails`). A pass that fails has written over the
  slots that the next one reads (`Cuckoo.BrokenPassLoses`, `Cuckoo.SecondPassCounts`). So there
  are 921 64-bit keys that go into a map without a failure, with the code's own hash functions,
  and the next insert returns without up to 256 of them (`CuckooLosses.FilledMapLosesKeys`); in
  another order, the next insert never returns, as each pass finds three copies of a pair
  (`CuckooLosses.FilledMapNeverReturns`).
* `HashMapHopscotch::emplace` returns if and only if a table of the largest capacity can hold the
  pairs: its load factor allows them, and no arc of homes has as many keys as its length and the
  neighbourhood together (`Hopscotch.HashMapHopscotch.Emplace`). When the hash values stay below
  that capacity, no interval [a, b] of them may have more than b - a + 64 keys
  (`HopscotchGrowth.HoldableByIntervals`). So it never returns for the 65th key of one hash value,
  for the 66th of two neighbouring ones, or for the 66th among the int keys -1 and 0, whose homes
  are neighbours at every capacity (`Hopscotch.EqualKeysNeverReturn`,
  `Hopscotch.NeighboursNeverReturn`, `Hopscotch.MinusOneAndZeroNeverReturn`). Unless the load
  factor asks for it, it stores without a rehash if and only if, with the new key, no arc at the
  capacity it has is crowded (`Hopscotch.HashMapHopscotch.Place`).
* A scan turns every INT64 and FP64 value into a null, and keeps strings as references that do not
  always read back (`PlanInputs.SeenIsMeant`, `PlanExecution.ScanMeansItsCells`).
* With more than 2^58 buckets the last merge worker would get no range, because 32 << k leaves 64
  bits (`Directory.LastRangeWraps`).
* `string_from_rep` joins adjacent long strings, and reads an empty string as the next string on
  its page or as the bytes before the bitmap (`StringRefs.RepTextExact`).
* A CSV buffer that ends in a carriage return leaves after_field_sep_ set, so with trailing commas
  a line break after it is reported as a short record where the uncut text gives a missing comma
  (`CsvChunks.CutAfterReturn`, `CsvParser.CutChangesError`).
* An empty CSV buffer is read at its first character when a quote or an escape is pending, so it
  can close a quoted field too early; and it ends the record of a pending carriage return, so that
  a newline in the next buffer counts once more (`CsvChunks.EmptyChunk`,
  `CsvParser.EmptyChunkEndsQuote`).
* With `"` as escape character the parser answers `QuoteNotClosed` when the text ends in a closing
  quote (`CsvRoundTrip.LastNewlineIsNeeded`), although section 2 of RFC 4180 makes the last line
  break optional.
* The bitmap evaluation of a filter cuts an INT32 column's literal to 32 bits, the row evaluation
  does not (`Statements.LiteralsAgree`); and the row evaluation compares 64-bit integers as
  doubles, the bitmap evaluation does not (`Statements.DoublesAgree`,
  `Statements.RoundedLiteralMatches`).
* A `FilterThreadPool` of no threads runs nothing (`ThreadPool.NoWorkersNoCalls`).

## Model

| member | source | states |
|---|---|---|
| `WorkQueue.StepKeepsBalance` | src/execute.cpp:56-84 | every step of a worker keeps the rows still to be claimed, the blocks in hand and the rows handled together equal to all rows |
| `WorkQueue.FinishedRunHandlesEachRowOnce` | src/execute.cpp:56-84 | when all workers have stopped, under any schedule, they hold together what each row yields, each row once |
| `WorkQueue.StepMakesProgress` | src/execute.cpp:56-84 | every step of a worker that has not stopped uses up a finite budget |
| `WorkQueue.CanFinish` | src/execute.cpp:56-84 | from every state some schedule lets all workers stop |
| `SlabAllocator.TupleCollector.constructor` | include/slab_allocator.hpp:190-200 | a new collector is valid and holds nothing |
| `SlabAllocator.TupleCollector.Consume` | include/slab_allocator.hpp:213-222 | the walk of each partition's chunks is the tuples consumed since the last reset with that partition, in order, and counts are its lengths |
| `SlabAllocator.TupleCollector.Reset` | include/slab_allocator.hpp:202-211 | a reset empties every partition and keeps the large chunks |
| `SlabAllocator.TupleCollector.AllocateSmallChunk` | include/slab_allocator.hpp:76-91 | small chunks are handed out one after another and `remaining` stays a multiple of the small chunk size |
| `SlabAllocator.TupleCollector.AllocateLargeChunk` | include/slab_allocator.hpp:37-51 | a large chunk is reused before a new one is taken |
| `SlabAllocator.TupleCollector.PartitionTuples` | src/execute.cpp:116-129 | the loops over a partition's chunks read the consumed tuples of the partition, as many as counts says |
| `SlabAllocator.StoreChangesOneWalk` | include/slab_allocator.hpp:135-139 | storing a tuple adds it to its partition's walk and changes no other walk |
| `SlabAllocator.TuplesApart` | include/slab_allocator.hpp:127-139 | the bytes of two stored tuples never overlap, within a partition or across partitions |
| `Directory.PackUnpack` | src/hashmap_unchained.hpp:246-258 | start and filter come back from a packed entry when the start is below 2^48 |
| `Directory.CountAndTag` | src/hashmap_unchained.hpp:167-172 | counting in the upper 48 bits and or-ing a tag into the lower 16 do not disturb each other while the count fits |
| `Directory.BucketBound` | src/hashmap_unchained.hpp:236-238 | a hash lands inside the directory |
| `Directory.PartitionOwnsBuckets` | src/execute.cpp:105-108 | with 2^k buckets, k at least 5, a tuple's top five hash bits are p exactly when its bucket lies in the directory range of worker p |
| `Directory.RangesTileDirectory` | src/execute.cpp:105-108 | the workers' ranges follow one another and cover the directory |
| `Directory.LastRangeWraps` | src/execute.cpp:105-108 | the end computed for the last worker in 64 bits is the end of the directory if and only if there are at most 2^58 buckets |
| `HashIndex.TagBits` | src/hashmap_unchained.hpp:262-270 | bits 21 to 31 of a hash choose its tag |
| `HashIndex.TagsAreAdmitted` | src/hashmap_unchained.hpp:262-270 | a tag or-ed into a filter passes it: no false negatives |
| `HashIndex.LookupFindsAll` | src/hashmap_unchained.hpp:185-199 | the looked-up range holds every tuple with the key, as often as it was put in |
| `HashIndex.IndexesAgree` | src/hashmap_unchained.hpp:123-199 | two builds over the same tuples give the same directory entries and the same tuples in each bucket |
| `MergePhase.CountKeepsInv` | src/execute.cpp:88-102 | counting and tagging one tuple keeps every worker's slots as far as that worker has come |
| `MergePhase.SumKeepsInv` | src/execute.cpp:104-114 | turning a slot's count into its start position keeps the invariant |
| `MergePhase.PlaceKeepsInv` | src/execute.cpp:116-129 | scattering one tuple keeps the invariant and stays inside its bucket |
| `MergePhase.MergeBuildsIndex` | src/execute.cpp:86-130 | under every interleaving the merge phase ends in an index over all collected tuples and no insert is out of bounds |
| `MergePhase.StepAdvances` | src/execute.cpp:86-130 | every step of an unfinished worker advances that worker and no other |
| `MergePhase.CanFinish` | src/execute.cpp:86-130 | from every reachable state some schedule finishes the merge phase |
| `Interference.SlotsDiffer` | src/execute.cpp:86-130 | two workers never touch the same directory slot or cursor |
| `Interference.PositionsDiffer` | src/execute.cpp:116-129 | two workers never write the same tuple position |
| `Interference.StepsCommute` | src/execute.cpp:86-130 | in every reachable state the next steps of two workers can be swapped |
| `UnchainedMap.HashMapUnchained.constructor` | src/hashmap_unchained.hpp:62-78 | the directory has the least power of two of buckets that is enough, and starts empty |
| `UnchainedMap.SortedBucketIsRun` | src/hashmap_unchained.hpp:128-148 | in tuples sorted by hash each bucket is one run, where the prefix sums say |
| `UnchainedMap.HashMapUnchained.CreateDirectory` | src/hashmap_unchained.hpp:123-165 | the sequential build reaches an index over the tuples given to it |
| `UnchainedMap.HashMapUnchained.Lookup` | src/hashmap_unchained.hpp:185-199 | on an index over the tuples the range contains every tuple with the key |
| `ParallelBuild.MergeRun.Step` | src/execute.cpp:86-130 | one step of a merge worker on the map itself, by count_and_tag, prefix_sum or insert, is one step of the merge phase |
| `ParallelBuild.MergeRun.Play` | src/execute.cpp:266-279 | the workers' steps on the map in any order are the run of the merge phase in that order |
| `ParallelBuild.MergeTuples` | src/execute.cpp:246-282 | prefix sums, resize, the 32 merge workers under any finishing schedule, and finalize_directory leave the directory and tuples of the merge phase, an index over the collected tuples |
| `ParallelBuild.BuildSequentially` | src/hashmap_unchained.hpp:116-165 | emplacing pairs and then create_directory leaves an index over them |
| `ParallelBuild.BuildsAgree` | src/hashmap_unchained.hpp:108-199 | the sequential and the parallel build give the same directory, and both find each key's tuples |
| `HashJoin.PartitionListsKeepAll` | src/execute.cpp:88-92 | splitting the collected tuples by partition keeps each of them once |
| `HashJoin.BuildFeedsMerge` | src/execute.cpp:219-263 | after the build phase, from a reset context whatever earlier joins left in it, the merge phase gets the tuples of all non-null build rows |
| `BuildPhase.BuildRun.Step` | src/execute.cpp:56-84 | one step of a build worker on its own collector is one step of the claim protocol |
| `BuildPhase.BuildRows` | src/execute.cpp:210-236 | whatever the collectors held, after a reset and under any schedule each holds the tuples of its worker |
| `BuildPhase.Collected` | src/execute.cpp:238-244 | partition p of the 32 collectors is the partition list of the merge phase, and its summed count the list's length |
| `HashJoin.ProbeRowIsPairings` | src/execute.cpp:148-178 | a probe row yields exactly its pairings with the build rows of the same key |
| `ProbePhase.ProbeOneRow` | src/execute.cpp:148-178 | inserting each matched pair column by column adds exactly the probe row's output rows to the worker's columns |
| `ProbePhase.ProbeRun.Step` | src/execute.cpp:132-180 | one step of a probe worker on its own columns is one step of the claim protocol |
| `ProbePhase.ProbeAndMerge` | src/execute.cpp:284-312 | after the probe phase of a completed run, merge_results leaves the columns of the join's result rows |
| `JoinRun.RunUnchained` | src/execute.cpp:210-312 | the three phases on collectors, map and columns, under any completing schedule, leave the columns of rows that are the nested-loop join as a bag, and collectors fit for the next join |
| `HashJoin.JoinIsNestedLoop` | src/execute.cpp:56-312 | for every interleaving of the three phases, every hash function and either build side, the result rows are as a bag those of the nested-loop equi-join on non-null keys |
| `HashJoin.JoinCanComplete` | src/execute.cpp:210-312 | whatever the hash function, bucket count, tags and context, some schedule brings the join to its end, so the claim above is never empty |
| `PlanExecution.RowsOfColumns` | src/execute.cpp:184-208 | rows are determined by their columns when there is at least one |
| `PlanMeaning.CellsOfRows` | include/column_store_utils.hpp:20-110 | cell c of row i is cell i of column c |
| `PlanMeaning.CellsOfColumns` | include/column_store_utils.hpp:20-110 | and the other way round |
| `PlanExecution.MergedIsResult` | src/execute.cpp:184-208 | merging the workers' columns gives the columns of the workers' rows (ProbePhase fills them) |
| `PlanExecution.JoinInputsOk` | src/execute.cpp:317-348 | in a well-typed plan the inputs of a join have int32 or null keys and valid output columns |
| `PlanExecution.ExecuteIsTyped` | src/execute.cpp:358-371 | executed columns have the node's width, equal lengths and the declared types |
| `PlanExecution.NestedLoopIsEquiJoin` | src/execute.cpp:160-176 | joining by row numbers, with output indexes below the left width naming left columns, is the equi-join of the rows |
| `Relational.EquiJoinPermutes` | src/execute.cpp:317-348 | the bag of an equi-join depends only on the bags of its sides |
| `Relational.EquiJoinMaps` | src/execute.cpp:160-176 | decoding commutes with the equi-join when it keeps which keys are equal |
| `Relational.EquiJoinCounts` | src/execute.cpp:160-176 | a row comes out of an equi-join as often as there are pairs of rows with equal keys whose cells, the left ones first, it takes by index |
| `PlanMeaning.RowsOfScan` | src/execute.cpp:350-356 | row i of a scan has row i of the column that each attribute names |
| `PlanMeaning.CellsMean` | src/build_table.cpp:513-582 | a cell means nothing, the number in its four bytes, its characters or its eight bytes |
| `PlanMeaning.RowsOfJoin` | src/execute.cpp:160-176 | a row comes out of a join once for each pair of rows with the same number as keys whose cell it has for each attribute: the left row's of that index, or the right row's behind the left width |
| `PlanMeaning.RowsOfJoinRun` | src/execute.cpp:317-348 | so does every run of the join yield it, under any schedule |
| `PlanInputs.ScanTable` | include/column_store_utils.hpp:122-274 | a scan returns for each column, however its rows lie on pages, its decoded integers, its string references, or nulls |
| `PlanInputs.CopyOther` | include/column_store_utils.hpp:243-272 | a column of another type becomes nulls, one for each row of the table |
| `PlanInputs.SeenIsMeant` | include/column_store_utils.hpp:122-274 | a scanned column reads back as its cells if and only if it has no 64-bit value and no unrecoverable string |
| `PlanExecution.ScanMeansItsCells` | src/execute.cpp:350-356 | a scan yields the rows of the table's cells if and only if all columns it reads are faithful |
| `PlanExecution.ExecutedAsSeen` | src/execute.cpp:317-371 | every plan and run yields as a bag the meaning of the tree over the input tables as they read back, faithful or not |
| `PlanExecution.PlanMeansItsDenotation` | src/execute.cpp:317-371 | for every acyclic plan with int32 join keys whose scans read faithful columns, and every run, the decoded result rows are as a bag the relational meaning of the tree over the cells of its input tables |
| `PlanExecution.PlanCanRun` | src/execute.cpp:317-371 | every plan whose nodes mean fewer than 2^48 rows has a run |
| `PlanRun.RunPlan` | src/execute.cpp:317-371 | scans and joins run one after another over one context, from whatever it holds, give the columns of the run for every node of a plan |
| `ColumnStore.Int32RoundTrip` | src/build_table.cpp:527-538 | an int32 comes back from its four little-endian bytes |
| `ColumnStore.Int32IsItsBytes` | src/build_table.cpp:527-538 | four bytes read as the int32 that is their sum with weights 1, 256, 256^2 and 256^3, or 2^32 less |
| `ColumnStore.BytesOfInt32` | src/build_table.cpp:673-702 | the bytes of an int32, or of it and 2^32 when it is negative, the lowest first |
| `ColumnStore.ColumnT.constructor` | include/column_store_utils.hpp:93-96 | a new column is empty |
| `ColumnStore.ColumnT.Insert` | include/column_store_utils.hpp:98-104 | the value goes to the end, and every page but the last stays full |
| `ColumnStore.ColumnT.GetValue` | src/execute.cpp:32-50 | the page and offset found by division give the value of that row, from pages of 1024 values or from the four bytes on the page in place |
| `ColumnStore.PagedRead` | src/execute.cpp:198-204 | division by 1024 finds the row in pages that are full but for the last |
| `ColumnStore.InsertRow` | src/execute.cpp:200-204 | one row goes to the end of every result column |
| `ColumnStore.MergeResults` | src/execute.cpp:184-208 | each result column is the workers' columns one after another |
| `OpenAddressing.NextPowerOfTwo` | src/hashmap_robinhood.hpp:28-32 | the least power of two that is enough |
| `RobinHood.PlaceKeepsTable` | src/hashmap_robinhood.hpp:170-192 | storing the carried pair over an empty slot or a smaller PSL keeps every stored PSL an over-estimate, every slot from home to entry taken, and the largest PSL a bound |
| `RobinHood.SwapIsFurthest` | src/hashmap_robinhood.hpp:182-189 | pairs are swapped only at the furthest slot the insertion has reached |
| `RobinHood.CarriedIsSwapped` | src/hashmap_robinhood.hpp:182-189 | a swap keeps table and carried pair together and steps the cursor back to the swapped pair's PSL |
| `RobinHood.CarriedIsPlaced` | src/hashmap_robinhood.hpp:175-180 | the last pair is stored at the furthest slot, which bounds all stored PSLs |
| `RobinHood.MissIsFinal` | src/hashmap_robinhood.hpp:244-261 | a probe that meets an empty slot, a smaller PSL or the largest PSL has missed no entry |
| `RobinHood.HashMapRobinhood.constructor` | src/hashmap_robinhood.hpp:128-133 | a new map is empty and large enough |
| `RobinHood.HashMapRobinhood.Place` | src/hashmap_robinhood.hpp:162-193 | the insertion loop ends, adds the pair, loses none and lowers no stored PSL |
| `RobinHood.HashMapRobinhood.Rehash` | src/hashmap_robinhood.hpp:45-61 | doubling keeps the contents |
| `RobinHood.HashMapRobinhood.Emplace` | src/hashmap_robinhood.hpp:156-236 | both overloads add the pair to the contents, duplicates included |
| `RobinHood.HashMapRobinhood.Find` | src/hashmap_robinhood.hpp:238-262 | find hits exactly the keys in the contents, at a slot with that key |
| `RobinHood.InsertThenFind` | src/hashmap_robinhood.hpp:156-262 | after any sequence of inserts into an empty map find hits a key exactly when it was inserted |
| `HopscotchTable.ComputeNeighborhood` | src/hashmap_hopscotch.hpp:33-39 | a neighbourhood is at most 64, and at most half the table where it is smaller than the table |
| `HopscotchTable.MoveKeepsHops` | src/hashmap_hopscotch.hpp:187-204 | moving an entry into the hole keeps each hop bit set exactly for the entries of its home |
| `HopscotchTable.InsertKeepsHops` | src/hashmap_hopscotch.hpp:218-220 | storing the new entry keeps the hop bits exact and adds one pair |
| `HopscotchTable.MoveKeepsCompact` | src/hashmap_hopscotch.hpp:187-204 | a displacement keeps every slot from an entry's home to the entry taken, but for the hole |
| `HopscotchCrowding.TableIsUncrowded` | src/hashmap_hopscotch.hpp:33-39 | in a table with exact hop bits an arc of homes has fewer keys than its length and the neighbourhood together |
| `HopscotchCrowding.FullIsCrowded` | src/hashmap_hopscotch.hpp:171-176 | when all hop bits of a home are set, one more key crowds it |
| `HopscotchCrowding.StuckIsCrowded` | src/hashmap_hopscotch.hpp:184-215 | when no entry can be moved into a hole out of reach, the block of slots before the hole and the new key crowd an arc |
| `HopscotchGrowth.HeldAreUncrowded` | src/hashmap_hopscotch.hpp:33-39 | the pairs a table holds have at most b - a + 64 keys with hash values in any [a, b] |
| `HopscotchGrowth.BigIsUncrowded` | src/hashmap_hopscotch.hpp:33-39 | in a large enough table pairs that meet this condition are not crowded |
| `HopscotchGrowth.UncrowdedUpTo` | src/hashmap_hopscotch.hpp:41-57 | pairs that crowd no arc at some capacity crowd none at a larger one |
| `HopscotchGrowth.HoldableByIntervals` | src/hashmap_hopscotch.hpp:41-57 | when the hash values stay below the largest capacity, it can hold the pairs if and only if they meet the interval condition |
| `HopscotchGrowth.WrappedNotHoldable` | src/hashmap_hopscotch.hpp:161-222 | no capacity up to 2^64 can hold 66 pairs with the hash values 2^64 - 1 and 0 |
| `HopscotchGrowth.WrappedAreUncrowded` | src/hashmap_hopscotch.hpp:161-222 | 33 pairs with each of them meet the interval condition all the same |
| `HopscotchGrowth.TooManyTogether` | src/hashmap_hopscotch.hpp:161-222 | more keys in an interval of hash values than b - a + 64 break the interval condition, and no capacity can hold them |
| `Hopscotch.HashMapHopscotch.constructor` | src/hashmap_hopscotch.hpp:126-132 | a new map is empty and large enough |
| `Hopscotch.HashMapHopscotch.FindFree` | src/hashmap_hopscotch.hpp:178-181 | the first free slot from the home on is found |
| `Hopscotch.HashMapHopscotch.Search` | src/hashmap_hopscotch.hpp:187-208 | the search finds an entry that can be moved into the hole, or none can |
| `Hopscotch.HashMapHopscotch.Displace` | src/hashmap_hopscotch.hpp:185-208 | a round moves the hole strictly closer to the home and keeps contents and hop bits, or changes nothing and the hole is stuck |
| `Hopscotch.HashMapHopscotch.Place` | src/hashmap_hopscotch.hpp:166-221 | without a rehash the pair is stored if and only if no arc of homes is crowded with it |
| `Hopscotch.HashMapHopscotch.Rehash` | src/hashmap_hopscotch.hpp:41-57 | a rehash that returns keeps the contents in a larger table, and it returns when the largest capacity can hold the pairs and is not reached |
| `Hopscotch.HashMapHopscotch.Emplace` | src/hashmap_hopscotch.hpp:161-222 | an insert that returns adds the pair; when no load rehash is due it stores within the capacity if and only if no arc is crowded; it returns if and only if the largest capacity can hold the stored pairs and the new one |
| `Hopscotch.HashMapHopscotch.Find` | src/hashmap_hopscotch.hpp:224-241 | find hits exactly the keys in the contents |
| `Hopscotch.InsertThenFind` | src/hashmap_hopscotch.hpp:161-241 | inserts into an empty map all return if and only if the largest capacity can hold the pairs, and then find hits exactly the inserted keys |
| `Hopscotch.EqualKeysFit` | src/hashmap_hopscotch.hpp:161-222 | 64 pairs of one key can be inserted when its hash value stays below the largest capacity |
| `Hopscotch.EqualKeysNeverReturn` | src/hashmap_hopscotch.hpp:161-222 | 65 cannot, whatever the largest capacity |
| `Hopscotch.NeighboursNeverReturn` | src/hashmap_hopscotch.hpp:161-222 | nor 66 with the hash values 7 and 8 |
| `Hopscotch.MinusOneAndZeroNeverReturn` | src/hashmap_hopscotch.hpp:161-222 | nor 33 with the int key 0 and 33 with -1, for any largest capacity up to 2^64, although they meet the interval condition |
| `Cuckoo.KickConserves` | src/hashmap_cuckoo.hpp:98-136 | through any number of kicks the two tables and the carried pair keep every pair, and every stored pair sits in its own slot |
| `CuckooWalk.StoresWhenEnough` | src/hashmap_cuckoo.hpp:98-136 | the kick loop stores if and only if it may kick as often as the walks from the pair's two slots, over the table as it stands, say |
| `CuckooWalk.JammedNeedsForever` | src/hashmap_cuckoo.hpp:98-136 | no number of kicks is enough if and only if both slots lie in a set of slots full of pairs that have both slots in it |
| `CuckooWalk.KicksBound` | src/hashmap_cuckoo.hpp:98-136 | otherwise twice the number of stored pairs and one more kick are enough |
| `CuckooAttempts.FirstTryStoresWhen` | src/hashmap_cuckoo.hpp:98-136 | an attempt stores, and is exact, if and only if at most 512 kicks are needed; else exactly the carried pair is missing |
| `CuckooAttempts.SmallTableStoresWhen` | src/hashmap_cuckoo.hpp:98-136 | with fewer than 256 pairs, if and only if the new pair is not jammed |
| `CuckooAttempts.JammedDrops` | src/hashmap_cuckoo.hpp:98-136 | a jammed pair is not stored by an attempt in a table of any size |
| `CuckooLimits.CollidingInsertDropsStoredNode` | src/hashmap_cuckoo.hpp:98-136 | a third pair that shares both slots with two stored ones drops the one in the second table |
| `Cuckoo.HashMapCuckoo.constructor` | src/hashmap_cuckoo.hpp:228-233 | a new map is empty and large enough |
| `Cuckoo.HashMapCuckoo.EmplaceNoRehash` | src/hashmap_cuckoo.hpp:98-136 | success stores the carried pair; failure leaves one pair out and hands it back; the loop is the kick function |
| `Cuckoo.HashMapCuckoo.Find` | src/hashmap_cuckoo.hpp:309-321 | the two slots looked at decide whether the key is stored |
| `Cuckoo.HashMapCuckoo.RehashPass` | src/hashmap_cuckoo.hpp:57-95 | a pass re-inserts all slots at twice the capacity, and a pass that fails leaves the overwritten slots that the next one reads |
| `Cuckoo.HashMapCuckoo.Rehash` | src/hashmap_cuckoo.hpp:57-95 | passes follow one another until one completes; when the first does, the contents are kept |
| `Cuckoo.OnePassEmplace` | src/hashmap_cuckoo.hpp:257-282 | an insert whose rehashes complete in one pass each ends as the insert without further passes does |
| `Cuckoo.FirstPassKeeps` | src/hashmap_cuckoo.hpp:57-95 | when the first pass over the tables completes, the rehash ends with it and keeps the contents |
| `Cuckoo.SecondPassCounts` | src/hashmap_cuckoo.hpp:57-95 | when it breaks at a slot and the second completes, the number of pairs has changed by the counts of the two tables up to that slot |
| `Cuckoo.BrokenPassOverwrites` | src/hashmap_cuckoo.hpp:57-95 | below the slot at which a pass fails, the slots of the first table are taken where those of the second are |
| `Cuckoo.BrokenPassLoses` | src/hashmap_cuckoo.hpp:57-95 | the slots lose as many pairs as the first table had below and at that slot beyond those of the second below it and one more |
| `Cuckoo.PassConserves` | src/hashmap_cuckoo.hpp:57-95 | re-inserting all slots in the order of rehash keeps the contents when no pair is dropped |
| `CuckooRehash.DoublingUnjams` | src/hashmap_cuckoo.hpp:57-95 | a pair of a table is not jammed at twice the capacity by the others: they have found slots for all at the old one |
| `CuckooRehash.PassNeverFails` | src/hashmap_cuckoo.hpp:57-95 | the first pass of a rehash of up to 256 pairs drops nothing, and keeps the contents |
| `Cuckoo.InsertConserves` | src/hashmap_cuckoo.hpp:257-282 | attempts that end have put the new pair in once each, and all but the last have lost a pair |
| `Cuckoo.ExactWhen` | src/hashmap_cuckoo.hpp:257-282 | an insert that returns is exact if and only if its failed attempts, as functions of the tables before the call, drop copies of the new pair only |
| `Cuckoo.HashMapCuckoo.Emplace` | src/hashmap_cuckoo.hpp:257-282 | the method is the insert function of the tables before the call, failed passes included, so it returns and is exact under the same conditions |
| `CuckooLimits.InsertLosesSecond` | src/hashmap_cuckoo.hpp:257-282 | with three pairs sharing both slots at this capacity and not at the next, the insert returns without the second and with the third twice |
| `CuckooLimits.FirstOfThreeIsLost` | src/hashmap_cuckoo.hpp:257-282 | any three such pairs inserted into an empty map lose the first |
| `CuckooLimits.KeyIsLost` | src/hashmap_cuckoo.hpp:8-29 | with the code's own hash functions and the default capacity, 7, 23 and 71 are such keys |
| `CuckooTraps.TrappedIsJammed` | src/hashmap_cuckoo.hpp:98-136 | a key whose hashes are among hash values with as many stored pairs is jammed at every capacity |
| `CuckooTraps.JammedIsTrapped` | src/hashmap_cuckoo.hpp:98-136 | at a capacity above all hash values only such a key is jammed |
| `CuckooTraps.TrapHoldsBoth` | src/hashmap_cuckoo.hpp:98-136 | both slots of such a key hold a pair with the key's hash for that slot |
| `CuckooHashers.HashesGoTogether` | src/hashmap_cuckoo.hpp:8-29 | keys that share one of the code's two hashes share both, as every step of mix_hash can be undone |
| `CuckooLimits.TrappedByTwo` | src/hashmap_cuckoo.hpp:8-29 | with the code's hash functions a key is trapped if and only if both of its slots hold pairs of that key |
| `CuckooTraps.TrappedNeverReturns` | src/hashmap_cuckoo.hpp:257-282 | a pair with a trapped key is never stored, however many rehashes complete |
| `CuckooTraps.TrappedGoesOn` | src/hashmap_cuckoo.hpp:257-282 | with up to 256 pairs stored its insert uses up any bound on attempts and passes |
| `CuckooTraps.SmallEmplacesRehash` | src/hashmap_cuckoo.hpp:57-95 | with up to 256 pairs no rehash of an insert needs a second pass |
| `CuckooTraps.ReturnsWhen` | src/hashmap_cuckoo.hpp:257-282 | with fewer than 256 pairs an insert returns, for some bounds, if and only if no attempt up to a capacity above all hash values meets a trapped key, and then it needs no more attempts |
| `CuckooChains.WalkIsTooLong` | src/hashmap_cuckoo.hpp:98-136 | on a chain of 514 pairs the 512 kicks for its last pair move 512 of them and drop another one |
| `CuckooChains.ChainFolds` | src/hashmap_cuckoo.hpp:57-95 | a chain, which is given by the slots of its pairs, at twice a capacity is one at that capacity |
| `CuckooChains.FirstPassBreaks` | src/hashmap_cuckoo.hpp:57-95 | the first rehash pass over a map with such a chain fails, and leaves the second table's pairs, or those it has moved, in the first one's slots |
| `CuckooChains.ChainNeverRehashes` | src/hashmap_cuckoo.hpp:57-95 | for a chain at four times the capacity with p[256], at its end, in the first table, no pass completes, however many follow and whatever its slots are there |
| `CuckooLosses.ChainRehashes` | src/hashmap_cuckoo.hpp:57-95 | when p[256] is in the second one the second pass completes, and the tables are stated slot by slot |
| `CuckooLosses.ChainLosesPairs` | src/hashmap_cuckoo.hpp:257-282 | then an insert that calls for the rehash returns, and the pairs p[k] that were in the first table are lost |
| `CuckooLosses.KeysAreChain` | src/hashmap_cuckoo.hpp:8-29 | 257 and 257 and 407 given 64-bit keys are such a chain for the code's own hash functions |
| `CuckooLosses.FilledMapLosesKeys` | src/hashmap_cuckoo.hpp:257-321 | these 921 keys go into a map of capacity 1024, in an order for each s up to 256; the k-th key of the chain is found, the insert of 2000 returns, and the k-th key is not found, for each k below s |
| `CuckooLosses.FilledMapNeverReturns` | src/hashmap_cuckoo.hpp:257-282 | with p[256] in the first table the next insert, of any key, uses up any bound on attempts and passes |
| `CuckooLimits.TwoFailuresAreFinal` | src/hashmap_cuckoo.hpp:257-282 | when two attempts have each dropped another pair the insert never returns, as two copies of the new pair are then stored |
| `PageFormat.BitsAfterPut` | src/build_table.cpp:639-655 | setting or clearing a bit changes that bit only |
| `PageFormat.BitsOfByte` | src/build_table.cpp:639-655 | the bits of a byte are its quotients by 1, 2, 4 to 128 modulo 2 |
| `PageFormat.HeaderReads` | src/build_table.cpp:675-676 | both header words are read back, and the rest of the page is untouched |
| `FixedPages.PutBitmap` | src/build_table.cpp:639-655 | the growing bitmap gets the bit and keeps the others |
| `FixedPages.RowsBound` | src/build_table.cpp:673-707 | a page that fits has at most 65504 rows, below both long-string marks |
| `FixedPages.GreedyKeepsRows` | src/build_table.cpp:683-707 | the greedy layout keeps all rows in order, every page fits and none is empty |
| `FixedPages.FullPages` | src/build_table.cpp:683-707 | without nulls every page but the last holds 1984 int32 or 1007 eight-byte rows |
| `PageBytes.FixedHeader` | src/build_table.cpp:673-682 | bytes 0 and 1 of a page are the number of its rows modulo 256 and divided by 256, bytes 2 and 3 likewise the number of its values |
| `PageBytes.FixedRow` | src/build_table.cpp:673-702 | row i has bit i % 8 of byte i / 8 of the bitmap at the end of the page, and its value lies behind those of the rows before it that are not null |
| `PageBytes.FitsInBytes` | src/build_table.cpp:688-702 | a page of rows fits when the width, that many bytes for each value and a bit for each row are 8192 bytes at most |
| `PageBytes.ChunksAreGreedy` | src/build_table.cpp:683-707 | the pages hold all rows in order, and each ends only before a row, null or not, that would not have fitted it |
| `FixedPages.SavePage` | src/build_table.cpp:673-682 | the saved page says its rows: counts, values and bitmap |
| `FixedPages.ToColumnar` | src/build_table.cpp:667-795 | the pages of an INT32, INT64 or FP64 column say the greedy layout of its values |
| `FixedPages.FromColumnar` | src/build_table.cpp:523-582 | reading gives the rows of the pages in order, or fails exactly when a non-null row lies beyond the table |
| `FixedPages.RoundTrip` | src/build_table.cpp:513-795 | every fixed-width column, nulls included, is read back as it was written |
| `FixedPages.EqualLengths` | src/execute.cpp:43-44 | division by the page length finds a row when all pages but the last have it |
| `FixedPages.PositionalRead` | src/execute.cpp:39-49 | on equally filled pages without nulls the positional read returns what sequential decoding returns |
| `FixedPages.WrittenIsEquallyFilled` | src/build_table.cpp:683-707 | the pages of a written column without nulls are equally filled |
| `ColumnInserter.Inserter.constructor` | include/plan.h:228-231 | a new inserter has inserted nothing |
| `ColumnInserter.Inserter.Insert` | include/plan.h:265-274 | the value is added; pages and the page being filled say the greedy layout |
| `ColumnInserter.Inserter.InsertNull` | include/plan.h:276-282 | the null is added, likewise, though the bitmap is never cleared |
| `ColumnInserter.Inserter.Finalize` | include/plan.h:284-288 | the finished pages say the same as those of to_columnar |
| `VarcharPages.SegmentsKeepRows` | src/build_table.cpp:833-873 | the layout in short pages and long strings keeps all rows in order, and every short page fits |
| `VarcharPages.RoomCheck` | src/build_table.cpp:851-865 | the room check of the code is that header, offsets, characters and bitmap fit the page, and a page out of room is not empty |
| `VarcharPages.SavePage` | src/build_table.cpp:821-832 | the saved page says its rows: counts, end offsets, characters and bitmap, with at most 65504 rows |
| `VarcharPages.SaveLongString` | src/build_table.cpp:804-820 | a long string is cut into one marked first page and marked continuation pages |
| `PageBytes.LongPage` | src/build_table.cpp:804-820 | page p of a long string begins with 255, 255 when it is the first and with 254, 255 otherwise, then has the number of its characters, and the characters from 8188 p on |
| `PageBytes.ShortHeader` | src/build_table.cpp:821-832 | a page of short strings begins with the number of rows and the number of strings, the lower byte first |
| `PageBytes.RowsBits` | src/build_table.cpp:821-832 | their bitmap lies at the end of the page, as on other pages |
| `PageBytes.StringOfShortRow` | src/build_table.cpp:821-832 | the k-th string lies, behind the offsets, from the (k-1)-th two-byte offset to the k-th |
| `PageBytes.RoomInBytes` | src/build_table.cpp:851-865 | short strings have room when 4 bytes, two for each string, their characters and a bit for each row are 8192 bytes at most |
| `PageBytes.DataLength` | src/build_table.cpp:851-870 | the characters of a page are those of its strings |
| `PageBytes.SegmentsAreGreedy` | src/build_table.cpp:833-873 | strings above 8185 bytes take pages of their own, and a page of shorter ones ends only before one of them or a row that it has no room for |
| `VarcharPages.ToColumnar` | src/build_table.cpp:796-878 | the pages of a VARCHAR column say its layout in segments |
| `VarcharPages.StringOfRow` | src/build_table.cpp:615-625 | a row's characters lie between the end offset before it and its own |
| `VarcharPages.FromColumnar` | src/build_table.cpp:583-630 | reading gives the rows of the segments in order, or fails exactly when a non-null row lies beyond the table |
| `VarcharPages.RoundTrip` | src/build_table.cpp:513-882 | every VARCHAR column is read back as written: nulls, empty strings, strings of any length next to each other |
| `StringInserter.Inserter.constructor` | include/plan.h:303-307 | a new inserter has inserted nothing |
| `StringInserter.Inserter.Insert` | include/plan.h:317-381 | the string is added; pages, offsets on the last page and the character buffer say the layout |
| `StringInserter.Inserter.InsertNull` | include/plan.h:383-389 | the null is added, likewise |
| `StringInserter.Inserter.Finalize` | include/plan.h:391-395 | the finished pages say the same as those of to_columnar |
| `Values.Int32Word` | include/columnar_utils.hpp:71-112 | an int32 comes back from its sign-extended 61-bit payload above the kind 1 |
| `Values.StringWord` | include/columnar_utils.hpp:81-123 | a string reference comes back from its word exactly when its fields fit their 5, 3, 20 and 16 bits above the kind 2 |
| `Values.ValueSurvivesPacking` | include/columnar_utils.hpp:60-123 | any null, int32 and fitting reference survives the 8-byte word, and only those |
| `TableScan.HasNulls` | include/column_store_utils.hpp:145-157 | comparing the two header words of each page finds out whether the column has a null, however the rows lie on the pages |
| `TableScan.CopyInt32` | include/column_store_utils.hpp:144-190 | a column with nulls becomes its values, each the number in its four bytes, and nulls where it or the pages have none; a column without nulls is read in place |
| `TableScan.CopyVarchar` | include/column_store_utils.hpp:191-242 | the scanned VARCHAR column holds for each string its page number and start offset, page by page |
| `TableScan.LateRead` | include/column_store_utils.hpp:191-273 | a string kept as a reference through scan and value_t comes back exactly when it is recoverable: a long one unless the next row is long, every short one that is not empty |
| `StringRefs.LongTextIsRun` | include/columnar_utils.hpp:157-179 | a long string is read together with all long strings that follow it directly |
| `StringRefs.ShortTextExact` | include/columnar_utils.hpp:180-212 | the first end offset past the start gives the row's string if and only if it is not empty, or nothing but the bitmap follows it |
| `StringRefs.RepTextExact` | include/columnar_utils.hpp:136-213 | a reference to a row gives its string if and only if the row is recoverable |
| `StringRefs.StringFromRep` | include/columnar_utils.hpp:136-213 | the two loops compute that text, and the empty string for a reference out of range |
| `StringRefs.RecoverableRows` | include/columnar_utils.hpp:157-212 | the condition in terms of rows: the next row is not long, or the string is short and not empty |
| `CsvSpec.ChunksDoNotMatter` | src/csv_parser.cpp:3-163 | the automaton's outcome does not depend on how the text is cut |
| `CsvParser.PeekIsRun` | src/csv_parser.cpp:79-161 | looking one character ahead is the automaton that does not |
| `CsvParser.CSVParser.constructor` | include/csv_parser.h:16-19 | a new parser is in the start state |
| `CsvParser.CSVParser.OneCharacter` | src/csv_parser.cpp:60-161 | one iteration of the loop does what the lookahead function says, errors included |
| `CsvParser.CSVParser.Execute` | src/csv_parser.cpp:3-163 | from any reachable state a buffer, empty or not, leads to the automaton's state, fields and error, with and without trailing commas, what is pending from before the buffer dealt with first |
| `CsvParser.CSVParser.Finish` | src/csv_parser.cpp:165-175 | finish ends the text as the automaton does, in both modes |
| `CsvParser.ParseChunks` | src/csv_parser.cpp:3-175 | any split into non-empty chunks gives the fields of the whole text and accepts when it does; the first error is the same, but with trailing commas a short record may stand for a missing comma |
| `CsvChunks.ExecutedIsNear` | src/csv_parser.cpp:3-163 | states that differ only in a kept after_field_sep_ lead to the same fields and errors but for that one |
| `CsvChunks.CutAfterReturn` | src/csv_parser.cpp:24-59 | with trailing commas a cut after a carriage return changes the answer if and only if the record is complete and a further line break follows |
| `CsvParser.CutChangesError` | src/csv_parser.cpp:24-59 | the text a , CR CR b, cut after the first CR, is such an input |
| `CsvChunks.EmptyChunk` | src/csv_parser.cpp:3-59 | an empty chunk changes nothing if and only if no carriage return and no quote or escape is pending, whatever the character read behind it |
| `CsvParser.EmptyChunkEndsQuote` | src/csv_parser.cpp:3-22 | a doubled quote cut in two with an empty chunk between reads as ab, the whole text as a"b |
| `CsvRoundTrip.RunEscaped` | src/csv_parser.cpp:123-158 | reading escaped text inside quotes gives the text |
| `CsvRoundTrip.PrintedTableIsReadBack` | src/csv_parser.cpp:60-175 | a non-empty rectangular table printed with quoted, escaped fields and newline-ended records, with or without trailing commas, is read back cell by cell, with a backslash or the quote as escape |
| `CsvRoundTrip.EmptyTextIsOneField` | src/csv_parser.cpp:165-175 | the empty text is one empty field, or with trailing commas an error, so printing no record is not read back |
| `CsvRoundTrip.LastNewlineIsNeeded` | src/csv_parser.cpp:165-175 | without its last newline a table is read back with a backslash escape and rejected with the quote as escape |
| `CsvFormats.FormattedTableIsReadBack` | src/csv_parser.cpp:60-163 | a non-empty rectangular table is read back cell by cell, each field bare, quoted or in pieces of both, each record ended by LF, CRLF or CR, with or without trailing commas |
| `CsvFormats.FieldsOfTable` | src/csv_parser.cpp:68-73 | the fields reported for a table of n columns are cell (r, c) at place r n + c, with its column and row |
| `CsvFormats.RaggedIsFound` | src/csv_parser.cpp:88-110 | when the first record of another width is record r, the answer is InconsistentColumns and the fields are those of the records before and of its own ended fields |
| `CsvFormats.MissingCommaIsFound` | src/csv_parser.cpp:88-92 | with trailing commas a record without one gives NoTrailingComma and the fields up to there |
| `CsvFormats.LastLineMayBeOpen` | src/csv_parser.cpp:165-175 | without the last line end the table is read back, unless it ends in a quoted piece and the quote is the escape; a lone empty last field is no record |
| `CsvFormats.LoneEscapeIsText` | src/csv_parser.cpp:141-158 | in quotes an escape before another character than itself or a quote stands for itself |
| `CsvFormats.EscapedIs` | src/csv_parser.cpp:123-158 | printing puts an escape before each quote and escape and nothing else |
| `ThreadPool.StepKeepsInv` | include/inner_column.h:29-50 | every step of caller or worker, spurious wakeups included, keeps the protocol invariant |
| `ThreadPool.BeginIdxGrows` | include/inner_column.h:23-27 | begin_idx starts at 0, ends at the number of tasks and never falls |
| `ThreadPool.RangesTileTasks` | include/inner_column.h:23-27 | the workers' ranges one after another are the task indexes |
| `ThreadPool.RunHandsOutEachTaskOnce` | include/inner_column.h:85-104 | when run has returned, the calls of the function covered each task index exactly once |
| `ThreadPool.NoWorkersNoCalls` | include/inner_column.h:85-104 | a pool without threads returns and calls nothing |
| `ThreadPool.WorkerStepsAdvance` | include/inner_column.h:29-50 | every worker step brings the end of the run nearer |
| `ThreadPool.CallerStepsAdvance` | include/inner_column.h:85-104 | every step of the caller brings the end of the run nearer |
| `ThreadPool.NeverStuck` | include/inner_column.h:29-104 | inside run caller and workers are never all blocked |
| `ThreadPool.RunCanReturn` | include/inner_column.h:29-104 | from every reachable state of a run some schedule without spurious wakeups lets run return |
| `Bitmaps.BitIs` | src/statement.cpp:8-44 | row i has bit i % 8, the lowest first, of byte i / 8 |
| `Bitmaps.BitmapNot` | src/statement.cpp:8-16 | every bit is complemented |
| `Bitmaps.BitmapAnd` | src/statement.cpp:18-30 | every bit is the conjunction |
| `Bitmaps.BitmapOr` | src/statement.cpp:32-44 | every bit is the disjunction |
| `InnerColumns.BitmapPushBack` | include/inner_column.h:136-152 | the bitmap gets the new row's bit and keeps the others |
| `InnerColumns.NumberColumn.PushBack` | include/inner_column.h:154-157 | the value becomes the last row |
| `InnerColumns.NumberColumn.PushBackNull` | include/inner_column.h:159-162 | a null becomes the last row |
| `InnerColumns.StringColumn.PushBack` | include/inner_column.h:360-364 | the string becomes the last row |
| `InnerColumns.StringColumn.PushBackNull` | include/inner_column.h:366-369 | a null becomes the last row |
| `InnerColumns.Kernel` | include/inner_column.h:250-326 | a kernel sets the bits of the matching non-null rows of its bytes and no other |
| `InnerColumns.RunKernel` | include/inner_column.h:172-183 | the kernels over the pool's byte ranges, in the order of the workers, set exactly the bits of the matching non-null rows |
| `ParallelKernel.BytesApart` | include/inner_column.h:172-183 | two workers never read or write the same byte of the output |
| `ParallelKernel.StepIsOk` | include/inner_column.h:29-104 | every step of the pool, and every read or write of a kernel between them, keeps each worker's rows as far as it has come |
| `ParallelKernel.EveryScheduleSetsTheBits` | include/inner_column.h:172-183 | when run has returned, exactly the bits of the matching non-null rows are set, however pool and kernels were interleaved |
| `ParallelKernel.BytesInAnyOrder` | src/statement.cpp:8-44 | a task that replaces bytes by index gives the same bytes in every order of the indexes that the pool has handed out |
| `InnerColumns.NumberColumn.Compare` | include/inner_column.h:172-248 | all six comparisons take exactly the non-null rows that meet them, for any type of number |
| `InnerColumns.BeforeIsPrecedes` | include/inner_column.h:388-412 | a string is before another when it is a proper prefix of it or its byte is smaller at the first difference |
| `InnerColumns.StringColumn.Compare` | include/inner_column.h:388-565 | each of the six operators, LIKE and NOT LIKE takes exactly the non-null rows that it should, in that order of strings |
| `Statements.LiteralsAgree` | src/statement.cpp:49-67 | the literal cut to 32 bits compares with every int32 as the literal does if and only if it is in range, or it is on the side where the cut makes no difference |
| `Statements.WrappedLiteralMatches` | src/statement.cpp:49-67 | x = 4294967296 takes the rows with 0 in the bitmap evaluation and none row by row |
| `Statements.DoublesAgree` | include/statement.h:163-183 | comparing as doubles is comparing as 64-bit integers for every value if and only if no neighbour of the literal on the side that matters has its double |
| `Statements.SmallLiteralsAreApart` | include/statement.h:163-183 | so it is for every literal strictly between -2^53 and 2^53 |
| `Statements.RoundedLiteralMatches` | include/statement.h:163-183 | x = 9007199254740992 takes 9007199254740993 row by row and not in the bitmap evaluation |
| `Statements.NumbersOfRow` | src/statement.cpp:135-165 | row by row each operator compares the two numbers, 64-bit integers as doubles |
| `Statements.TextsOfRow` | src/statement.cpp:147-185 | strings compare by the first byte that differs, or by LIKE |
| `Statements.OthersOfRow` | src/statement.cpp:135-188 | a null or a value of another kind than the literal meets null tests only |
| `Statements.OperationOfRow` | src/statement.cpp:203-228 | AND wants all children, OR one, and NOT the one child not to hold |
| `Statements.WrapIsUnique` | src/statement.cpp:56 | the literal of an INT32 column is cut to the int32 that differs from it by a multiple of 2^32 |
| `Statements.ColumnTakesWhen` | src/statement.cpp:46-133 | over columns each operator takes the cells that are less, greater, equal and so on, strings by the first byte that differs |
| `Statements.EvalComparison` | src/statement.cpp:46-133 | the bitmap of a comparison over INT32, INT64, FP64 and VARCHAR columns has exactly the bits of the rows that each operator takes, told operator by operator |
| `Statements.Eval` | src/statement.cpp:46-228 | for every well-typed AND, OR, NOT tree over the four column types whose literals compare alike, bit i of the bitmap is the evaluation of row i, nulls under NOT included |
| `Selection.IntsToColumn` | src/build_table.cpp:104-129 | the pages hold exactly the values of the taken rows in order, and the count is right |
| `Selection.TextsToColumn` | src/build_table.cpp:104-129 | likewise for strings |
| `Selection.FilterInts` | src/build_table.cpp:104-129 | evaluating, writing and reading back leaves the INT32 values of the rows that meet the statement, in order |
| `Selection.FilterTexts` | src/build_table.cpp:104-129 | likewise for strings |
| `Selection.ChosenRows` | src/build_table.cpp:104-129 | a row that meets the statement is found behind as many others as meet it before, and no other row is |

## Left out

- Hash functions: CRC32 and `std::hash` are any function; where the cuckoo hashers are named, `std::hash` leaves a 64-bit key as it is; the load-factor arithmetic that picks the bucket count is any power of two from 32 to 2^58; the tag table is any 2048 words.
- Sorting by hash: any sorted permutation stands for `std::sort`.
- C++ memory model: relaxed `fetch_add` is one atomic step and joining all threads is a barrier; a step reads and writes at once.
- Memory: large chunks lie one after another in an address space of their own per collector; allocation never fails; sizes, capacities and PSLs are unbounded integers.
- HashJoin.JoinIsNestedLoop: row counts are below 2^48, as the 48 bits of a directory entry require.
- HashJoin.ProbeRowIsPairings: reads key columns as values; ColumnStore.ColumnT.GetValue is the proof that get_value finds them.
- ColumnStore.MergeResults: works on the columns' page lists as values, so it does not model two result columns being one object; page_t's array is a sequence.
- ProbePhase.ProbeOneRow: reads both inputs as values of columns, as HashJoin.ProbeRowIsPairings does.
- PlanExecution.PlanMeansItsDenotation: every node has at least one output column, since a table without columns has no row count; at most 32 tables of at most 8 columns and 2^20 pages, the widths of a string reference; the final materialize is fetching each string (string_from_rep), not the pages it then writes.
- Hopscotch.HashMapHopscotch.Emplace: a rehash beyond a largest capacity, any power of two, fails where the source goes on without end; a 64-bit hop word is a set of bit numbers.
- Cuckoo.HashMapCuckoo.Emplace: bounds on attempts and on the passes of a rehash stand for its endless loops; what a moved-from pair holds is any function of the pair.
- The `reserve` methods of the three tables, iterators, `operator[]` helpers and `reinterpret_cast` pair views.
- `ColumnInserter` for 8-byte types: its room check adds 4 where a value takes 8 bytes, so a value can reach into the bitmap.
- `ColumnStoreUtils::materialize` and `from_value_t_to_columnar`: their `unset_bitmap` writes behind the end of a bitmap that it does not grow.
- `ColumnarUtils::my_copy`, its `materialize` and `MyTable`: older row-store duplicates.
- FixedPages.RoundTrip: a cell is its bytes; FP64 values are never interpreted, and the parallel loop over columns is not modelled.
- TableScan.LateRead: table numbers below 32, column numbers below 8 and at most 2^20 pages, the widths of the packed fields.
- Null page pointers, which no writer leaves.
- Statements.Eval: a double is a real number, so NaN and infinities are left out; the conversion of a 64-bit integer to double is any function that keeps the order and every integer up to 2^53.
- InnerColumns.NumberColumn.Compare: takes the workers' ranges one after another, which ParallelKernel proves to be as good as any interleaving.
- Bitmaps.BitmapNot: takes the bytes one after another, as BitmapAnd and BitmapOr do; ParallelKernel.BytesInAnyOrder says that any order does as well.
- Selection.FilterInts: writes INT32 and VARCHAR columns, as ColumnInserter for 8-byte types is left out.
- `LIKE`: any predicate on two strings; RE2 and its cache are not modelled.
- The destructor of `FilterThreadPool` and two callers of `run` at once.
- File input, mmap, caches, DuckDB, JSON plans, SQL parsing, printing, the benchmark driver and the tests.
