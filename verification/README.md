# SPTAG in Dafny

A model of the most intricate logic of SPTAG, the approximate-nearest-neighbour search library, with proofs of what
that logic is for. `dafny verify dfyconfig.toml` checks everything.

What is modelled, module by module:

- **The balanced partitioner.** `HardAssign` says what one quota round of one rank means (which candidate each vector
  offers and which candidates a cluster keeps), `Nearest` and `NearestRuns` what its labels mean on the distances alone,
  `RankProcess` is the rank itself with its arrays, threads' shards and
  the sign encoding of `tonode`, `PartitionRounds` is the machine of all ranks over all rounds, `Exchange` the sending
  and collecting of vectors by announced counts, and `Partition` runs rank objects through all rounds and the
  exchange, so that each of its runs is one of that machine. `CountMerge` and `MergeOverfill` are the saturating count
  merge and what it does to the capacity bound. `SoftAssign` is the k-means pass with its sharded reduction.
- **Head selection.** `SelectHead` is the recursive packing of a BKT tree into heads and the binary search over its
  two thresholds.
- **Storage.** `Bits` holds shift and mask, `BlockVector` is the two-level block table, `Records` the byte format of a
  list of records, and `Metadata` the file-backed and in-memory metadata sets.
- **Request protocol.** `ResourceManager`, `Aggregator` and `WaitSignal` are machines of atomic steps over which the
  safety properties hold in every interleaving; `ResourceTimers` says that timers always get through, and
  `SearchRequest` puts a request of the aggregator on top of the manager that keeps its callbacks.
- **Multi-index scan.** `MultiIndexScan` is the `Next` iterator with its bounded queue, seen set and output stack.
- **Query text.** `Base64`, `QueryText`, `Query` and `QueryService` go from the client's parameters through the
  printed text, the in-place tokeniser and the option extraction back to the same values.
- **Capacity.** `Capacity` holds the two memory estimates.

`Arith`, `Ascii`, `Collections` and `Sorting` hold the arithmetic, characters, sequence and set, sorting, counting and
permutation facts the others use.

Integers are unbounded unless a width matters, in which case the wrap-around is written out. Distances, weights and
ratios are reals. Streams are byte sequences. Where the code does not do what one would expect, the model follows the
code:

- `LockFreeVector::assign` compares against a 64-bit difference that wraps, so data longer than the size limit is
  always accepted (`OverlongIsAccepted`), and so does `push_back` for a limit of 0. `MemMetadataSet::Init` relies on
  it: it takes a range of any length.
- `reserve` keeps blocks allocated earlier, so a vector reserved again is usable exactly when those blocks are long
  enough (`Reserve`, `ReserveAgain`); reserving 1 and then 2 after one element leaves it unusable (`ReservedTooLong`).
- `MemMetadataSet::Init` does not clear the tail, so a set is consistent after it exactly when it had none (`Init`).
- `FileMetadataSet::SaveMetadata` to files works in two locked regions; records added between them are lost unless
  they are empty: what is returned for one is whatever the new buffer held (`LostBetween`, `ConsistentIff`).
- A failed send finishes a result slot and leaves the callback registered, so the aggregator aggregates exactly twice
  instead of once when everything has happened (`OnceIffNoFailure`), possibly with an empty slot (`EarlyAggregation`).
- `WaitSignal::Wait` does not loop, so a spurious wake-up returns early (`EarlyReturn`).
- The Base64 decoder tests the spare bits of a one-pad text on the pad's own table entry, so such texts are accepted
  with any spare bits (`EncodeDecoded`, `LooseIsAccepted`).
- The head search starts from a best difference of 100, so it falls back to the thresholds it was given exactly when
  no grid pair is closer than that (`SelectHeadDynamicallyOld`), which cannot happen when the nodes
  below the root carry ids of the vectors and the ratio is above -98 (`GridAlwaysBelowStart`).
- The count merge saturates at the largest `int`. All shares together still fit the remaining capacity exactly under
  the condition of `MergedSharesFit`, and over all runs of n merging ranks the capacity bound holds if and only if the
  capacity is below the largest `int` plus n or at least n times that (`MergedBoundIff`); two ranks with a capacity two
  above the largest `int` overfill a cluster (`TwoRanksOverfill`).
- The first limit is cast to 32 bits. The cast never raises it, leaves it alone exactly if it fits, and makes it negative
  exactly if its value modulo 2^32 is above the largest `int` (`FirstLimitWraps`); such limits are excluded (`ConfigOk`).
- A `QueryParser` used again keeps the Base64 pointer and length of the earlier query if the new one has no Base64 token
  (`Parse`).
- `QueryParser::Parse` has an error return for a vector without elements; no text reaches it (`Parse`).
- An empty query vector is printed but refused by the server (`EmptyVectorFails`).

## Model

| member | source | states |
|---|---|---|
| HardAssign.RankingFacts | AnnService/src/BalancedDataPartition/main.cpp:330-342 | The sorted centers of a vector hold each center once, with its distance, in order of distance and then number |
| HardAssign.ItemsAreOk | AnnService/src/BalancedDataPartition/main.cpp:344-356 | A round's items are distinct, item i belongs to vector i, and an item too far names no cluster and is encoded as dropped |
| HardAssign.NearerInSorted | AnnService/src/BalancedDataPartition/main.cpp:372-395 | In sorted order the number of nearer candidates of a cluster is the distance from the start of its segment |
| HardAssign.KeepsInSorted | AnnService/src/BalancedDataPartition/main.cpp:384-396 | A candidate is among its cluster's quota nearest exactly when it lies in the first quota positions of the sorted segment |
| HardAssign.KeptCountIsQuota | AnnService/src/BalancedDataPartition/main.cpp:383-396 | A cluster keeps the smaller of its quota and its candidates, no more and no fewer |
| Nearest.RankingIsNth | AnnService/src/BalancedDataPartition/main.cpp:330-342 | The c-th of the sorted centers is the one with exactly c centers nearer to the vector, or as near and of a smaller number |
| Nearest.CloseIs | AnnService/src/BalancedDataPartition/main.cpp:344 | The test on the sorted centers says that the center is at most the factor times as far as the smallest distance |
| Nearest.CellOnDistances | AnnService/src/BalancedDataPartition/main.cpp:344-425 | A label cell written in round c names a center that is c-th nearest and close enough or is empty; the last round empties the later cells and no other cell changes |
| Nearest.NearestAreKept | AnnService/src/BalancedDataPartition/main.cpp:372-425 | Of two vectors with the same c-th nearest center, both close enough, one that gets the label is nearer than one that does not, or as near and the smaller number |
| Nearest.QuotaIsUsed | AnnService/src/BalancedDataPartition/main.cpp:374-452 | A cluster is given to as many of the vectors asking for it as the quota takes, to all if it is large enough, and the count grows by them |
| NearestRuns.CellsAreNearby | AnnService/src/BalancedDataPartition/main.cpp:600-627 | After any rounds of any run a filled cell c names a close enough c-th nearest center |
| NearestRuns.NearestGetTheCell | AnnService/src/BalancedDataPartition/main.cpp:600-627 | In every run, of two vectors of a rank asking for the same cluster in a round one that has the cell is nearer than one that has not, or as near and the smaller number |
| NearestRuns.WithoutOnlyWhenFull | AnnService/src/BalancedDataPartition/main.cpp:600-627 | In every run a vector goes without the cluster it asks for only if its rank's count has reached the limit |
| RankProcess.Rank.constructor | AnnService/src/BalancedDataPartition/main.cpp:600-605 | A new rank has the given first limit for every cluster, no counts and the given label rows |
| RankProcess.CutsCover | AnnService/src/BalancedDataPartition/main.cpp:322-328 | The threads' shards partition the vectors for any thread count, empty shards included |
| RankProcess.Rank.BuildItems | AnnService/src/BalancedDataPartition/main.cpp:324-370 | The sharded loop builds the item of every vector |
| RankProcess.Rank.SortItems | AnnService/src/BalancedDataPartition/main.cpp:372 | The items are sorted in place |
| RankProcess.Rank.TakeQuota | AnnService/src/BalancedDataPartition/main.cpp:374-382 | Each limit is reduced by this rank's count over all threads |
| RankProcess.Rank.LowerBound | AnnService/src/BalancedDataPartition/main.cpp:386 | The position is the first whose cluster is not below the given one |
| RankProcess.Rank.DropOverQuota | AnnService/src/BalancedDataPartition/main.cpp:383-396 | Exactly the items beyond their cluster's quota get the negative encoding |
| RankProcess.MarkMeaning | AnnService/src/BalancedDataPartition/main.cpp:383-417 | After dropping, a nonnegative encoding means kept and a negative one means dropped or too far |
| RankProcess.MarksAreOk | AnnService/src/BalancedDataPartition/main.cpp:398-417 | The marked items name every vector exactly once, so every label slot is written once |
| RankProcess.Rank.WriteLabels | AnnService/src/BalancedDataPartition/main.cpp:398-440 | The sharded write fills each vector's label cell and counts each kept item, whatever the number of threads |
| RankProcess.WriteMarksRow | AnnService/src/BalancedDataPartition/main.cpp:404-425 | The row of a vector after writing all items: one cell, and the rest filled in the last round |
| RankProcess.LabelsOfRound | AnnService/src/BalancedDataPartition/main.cpp:404-425 | The cell written for a vector is its candidate's cluster if kept, else the empty label |
| RankProcess.CountOfRound | AnnService/src/BalancedDataPartition/main.cpp:406-412 | The items counted for a cluster are the candidates it keeps |
| RankProcess.Rank.SumCounts | AnnService/src/BalancedDataPartition/main.cpp:443-452 | The counts become the sums over the threads' counters |
| RankProcess.Rank.HardAssign | AnnService/src/BalancedDataPartition/main.cpp:315-454 | One call changes limits, counts and labels exactly as one quota round, for any thread count |
| RankProcess.Rank.Rebalance | AnnService/src/BalancedDataPartition/main.cpp:609-621 | Between rounds the limit is the rank's own count plus its share of the remaining global capacity |
| PartitionRounds.SharesFit | AnnService/src/BalancedDataPartition/main.cpp:619-621 | The shares of all ranks together do not exceed the remaining capacity |
| PartitionRounds.ShareIsLargest | AnnService/src/BalancedDataPartition/main.cpp:619-621 | The share is the largest equal part that fits: one vector more for every rank would not |
| PartitionRounds.RebalancedLimits | AnnService/src/BalancedDataPartition/main.cpp:609-621 | After rebalancing the limits of all ranks add up to the global count and a share for each rank |
| PartitionRounds.CapacityIs | AnnService/src/BalancedDataPartition/main.cpp:507-509 | The capacity is the mean cluster size times the factor, rounded down |
| PartitionRounds.RoundWithinLimit | AnnService/src/BalancedDataPartition/main.cpp:374-396 | A round takes no cluster of a rank past its limit |
| PartitionRounds.QuotaNeverNegative | AnnService/src/BalancedDataPartition/main.cpp:374-396 | In every run, first limit cast to 32 bits, no rank starts a round with a negative quota or ends it past its limit |
| PartitionRounds.FirstLimitWraps | AnnService/src/BalancedDataPartition/main.cpp:600-601 | The cast never raises the first limit, leaves it alone exactly if it fits an int, and makes it negative exactly if its value modulo 2^32 does not |
| PartitionRounds.LaterLimitsFit | AnnService/src/BalancedDataPartition/main.cpp:619-621 | If a rank's vectors and its part of the capacity together fit an int, so do all its later limits |
| PartitionRounds.MergedSharesFit | AnnService/src/BalancedDataPartition/main.cpp:930-941 | With a saturated count the shares of all ranks fit the remaining capacity exactly if the capacity leaves less than one per rank above the largest int or the exact count exceeds that int by no more than the division drops |
| PartitionRounds.LaterRoundsWithinCapacity | AnnService/src/BalancedDataPartition/main.cpp:600-627 | For any hardcut, rounds after the first never push a cluster past the larger of the capacity and its count after round one, with merged counts while the saturation is harmless |
| PartitionRounds.CapacityBound | AnnService/src/BalancedDataPartition/main.cpp:507-509 | With hardcut 1, after every round of every run over any number of ranks no cluster's global count exceeds the capacity, with merged counts while the saturation is harmless |
| PartitionRounds.CountsAreLabelCells | AnnService/src/BalancedDataPartition/main.cpp:404-452 | After every round a rank's count of a cluster is the number of its label cells naming it |
| PartitionRounds.CellsNameRankedCenters | AnnService/src/BalancedDataPartition/main.cpp:344-348 | A filled label cell of column j names the vector's j-th nearest center |
| PartitionRounds.NoClusterTwice | AnnService/src/BalancedDataPartition/main.cpp:600-627 | Over all rounds no vector is given the same cluster twice |
| PartitionRounds.LocalAtMostVectors | AnnService/src/BalancedDataPartition/main.cpp:404-452 | In every run a rank's count of a cluster is at most the number of its vectors |
| MergeOverfill.Overfills | AnnService/src/BalancedDataPartition/main.cpp:1108-1138 | For every number of ranks, capacity and hardcut outside the harmless range there is a run that ends with one vector more than the capacity in a cluster that was within it after the first round |
| MergeOverfill.TwoRanksOverfill | AnnService/src/BalancedDataPartition/main.cpp:1108-1138 | Two merging ranks with hardcut 1 and a capacity two above the largest int overfill a cluster |
| MergeOverfill.MergedBoundIff | AnnService/src/BalancedDataPartition/main.cpp:1108-1138 | All runs of n int-sized merging ranks keep the bound if and only if the capacity is below the largest int plus n or at least n times it |
| Partition.Machine.constructor | AnnService/src/BalancedDataPartition/main.cpp:600-605 | All ranks start in the initial state of a run |
| Partition.Machine.Rounds | AnnService/src/BalancedDataPartition/main.cpp:600-627 | The ranks' rounds, reductions and rebalancing form a complete run of the machine, and the last reduction is its global counts |
| Partition.Machine.ExchangeCluster | AnnService/src/BalancedDataPartition/main.cpp:646-790 | After a complete run the exchange of a cluster never blocks, leaves every channel empty and writes a file with exactly the assigned records and their number as header |
| Partition.Process | AnnService/src/BalancedDataPartition/main.cpp:600-790 | From new ranks to files: a complete run, a file of exactly the assigned records for every cluster, and with hardcut 1 no file above the capacity |
| Partition.ProcessWithoutMPI | AnnService/src/BalancedDataPartition/main.cpp:1106-1142 | With counts merged by files: a complete run, its labels and saturated global counts, and with hardcut 1 the capacity bound while the saturation is harmless |
| Exchange.SelectedSize | AnnService/src/BalancedDataPartition/main.cpp:764-781 | The records a rank selects for a cluster are as many as its label cells naming it |
| Exchange.SelectedAt | AnnService/src/BalancedDataPartition/main.cpp:764-781 | What is selected of a vector is its own record, in the places after those of the vectors before it |
| Exchange.Send | AnnService/src/BalancedDataPartition/main.cpp:758-782 | A sender puts on the channel its announced count and then one record per matching label cell |
| Exchange.ReceiveFrom | AnnService/src/BalancedDataPartition/main.cpp:697-722 | The receiver takes exactly the announced records, never blocks and leaves the channel empty |
| Exchange.WriteOwn | AnnService/src/BalancedDataPartition/main.cpp:726-746 | The owner appends exactly its own matching records |
| Exchange.Collect | AnnService/src/BalancedDataPartition/main.cpp:694-753 | Collecting from all ranks in order drains every channel and leaves files that hold exactly the selected records, with the closing offset |
| Exchange.OutputHoldsRecords | AnnService/src/BalancedDataPartition/main.cpp:703-753 | The i-th vector of the files is that of the i-th record, and its metadata lies between offsets i and i + 1, the closing one included |
| Exchange.ExchangeAgrees | AnnService/src/BalancedDataPartition/main.cpp:625-745 | After every complete run the announced count is the vectors sent, and the header count the vectors in the file |
| SoftAssign.AssignedIsPrefix | AnnService/src/BalancedDataPartition/main.cpp:214-248 | A vector's assigned columns form a prefix |
| SoftAssign.FoldIsExtreme | AnnService/src/BalancedDataPartition/main.cpp:224-243 | The tracked assignment is the first farthest when updating centers, the last nearest otherwise, and only one past the start |
| SoftAssign.FoldIsJoin | AnnService/src/BalancedDataPartition/main.cpp:280-311 | Folding from a running extreme equals folding from the start and joining, ties included |
| SoftAssign.InterleavingIrrelevant | AnnService/src/BalancedDataPartition/main.cpp:187-262 | Any interleaving of the threads leaves each thread's tally as if it had run alone |
| SoftAssign.MergeIsConcat | AnnService/src/BalancedDataPartition/main.cpp:264-311 | Merging two shards' tallies is the tally of both shards in order |
| SoftAssign.MultipleClustersAssign | AnnService/src/BalancedDataPartition/main.cpp:171-313 | For any thread count, counts, extremes and labels are those of one sequential pass, and what they say about the distances |
| SoftAssign.SequentialOnDistances | AnnService/src/BalancedDataPartition/main.cpp:197-262 | On the distances: label c of a vector is its c-th nearest center if close enough; a count is the number of vectors assigned; the extreme is an assigned vector with its distance, the first farthest when updating centers, else the last nearest, or none if no assigned vector passes the start |
| CountMerge.MergeCounts | AnnService/src/BalancedDataPartition/main.cpp:909-941 | The merged count is the sum of the parts, or the largest int once a part is negative or the sum is too large |
| SelectHead.SelectInternal | AnnService/inc/SSDServing/SelectHead.h:420-469 | The recursive call returns the residue and appends exactly the subtree's pushes |
| SelectHead.HeadsAre | AnnService/inc/SSDServing/SelectHead.h:420-469 | An id is a head exactly if it is the center of an absorbing node of the tree and below the root's, or the center of a child taken with such a node |
| SelectHead.TakenAreLargest | AnnService/inc/SSDServing/SelectHead.h:450-463 | None are taken of a node not past the split threshold; otherwise weight / factor rounded up or all there are, and no child left out is larger than one taken |
| SelectHead.TakenOrNot | AnnService/inc/SSDServing/SelectHead.h:432-440 | The children taken or left out are those of the node's range that gathered fewer nodes than the select threshold, each once with that number |
| SelectHead.RoundIsNearest | AnnService/inc/SSDServing/SelectHead.h:479 | The rounding of the wanted number of heads is to the nearest, halves away from zero |
| SelectHead.HeadsShrink | AnnService/inc/SSDServing/SelectHead.h:450-463 | The deduplicated head set shrinks as the split threshold grows |
| SelectHead.SortedUniqueSize | AnnService/inc/SSDServing/SelectHead.h:508-509 | Sorting and removing neighbours' duplicates leaves as many ids as the set has |
| SelectHead.SearchRow | AnnService/inc/SSDServing/SelectHead.h:496-535 | One binary search is as good as probing every split threshold of its row |
| SelectHead.SelectHeadDynamicallyOld | AnnService/inc/SSDServing/SelectHead.h:471-550 | The ids returned are the heads of a grid pair whose share of heads no other grid pair brings nearer to the ratio, if some pair is closer than 100, else of the given thresholds |
| SelectHead.GridAlwaysBelowStart | AnnService/inc/SSDServing/SelectHead.h:493-525 | With ids of the vectors below the root and a ratio above -98 every grid pair is closer than 100; the closing node of a tree is not below the root |
| SelectHead.Conservation | AnnService/inc/SSDServing/SelectHead.h:427-468 | Tree nodes = returned residue + the sizes absorbed, and a residue is below the select threshold |
| SelectHead.Packing | AnnService/inc/SSDServing/SelectHead.h:443-463 | A absorbing nodes satisfy A * select <= nodes, and at most 2A + nodes / factor ids are pushed |
| SelectHead.PackingOfTree | AnnService/inc/SSDServing/SelectHead.h:420-469 | With unique parents the same bounds hold with the number of tree nodes |
| Bits.ShiftMaskAreDivMod | AnnService/inc/Helper/LockFree.h:56-63 | Shifting right by the exponent and the bitwise and with the power of two less one are quotient and remainder by that power |
| Bits.ChunkCells | AnnService/inc/Helper/LockFree.h:56-66 | A chunk within one block covers exactly the cells that shift and mask give for its offsets |
| Bits.RoundedUp | AnnService/inc/Helper/LockFree.h:43-45 | The shifted sum that is reserved is the number of blocks that so many elements need |
| BlockVector.Blocks.Reserve | AnnService/inc/Helper/LockFree.h:39-46 | The vector is empty with room for the maximum, and usable exactly when the blocks it kept are long enough |
| BlockVector.Blocks.EnsureBlock | AnnService/inc/Helper/LockFree.h:57-61 | A missing block is added, and the table grows past its capacity only when it was full |
| BlockVector.Blocks.Assign | AnnService/inc/Helper/LockFree.h:48-70 | Data no longer than the limit is appended exactly when it fits and the table keeps its capacity; longer data is always appended |
| BlockVector.Blocks.PushBack | AnnService/inc/Helper/LockFree.h:72-87 | The element is appended exactly when there is room or the limit is 0 |
| BlockVector.Blocks.Clear | AnnService/inc/Helper/LockFree.h:90 | The vector is empty afterwards |
| BlockVector.Blocks.Index | AnnService/inc/Helper/LockFree.h:93 | The element at an offset is that of the plain sequence |
| BlockVector.Blocks.Back | AnnService/inc/Helper/LockFree.h:89 | The last element of the plain sequence |
| BlockVector.Blocks.Copy | AnnService/inc/Helper/LockFree.h:95-106 | The exact slice, across blocks |
| BlockVector.Blocks.Save | AnnService/inc/Helper/LockFree.h:108-117 | Full blocks and remainder together are the whole contents |
| BlockVector.Blocks.Load | AnnService/inc/Helper/LockFree.h:119-139 | Exactly the wanted elements are appended, or a full table or a short stream leaves the contents alone; the table keeps its capacity |
| BlockVector.Blocks.Run | AnnService/inc/Helper/LockFree.h:39-139 | Every run in which each kept block is long enough for its reservation refines the same run on a plain sequence with its limit, block length, capacity and block table |
| BlockVector.Blocks.RunFresh | AnnService/inc/Helper/LockFree.h:39-139 | The same from a new vector, whatever it is reserved for first |
| BlockVector.OneReservationIsLegal | AnnService/inc/Helper/LockFree.h:48-139 | Without another reservation every run is legal while sizes stay within 64 bits and what is assigned at once within the limit |
| BlockVector.ReserveAgain | AnnService/inc/Helper/LockFree.h:39-46 | After one element a second reservation is legal exactly when its blocks are no longer than the first's |
| BlockVector.Blocks.ReservedTooLong | AnnService/inc/Helper/LockFree.h:39-66 | Reserving blocks of one, adding an element and reserving blocks of two leaves a vector whose second cell is not in its block |
| BlockVector.Blocks.SaveThenLoad | AnnService/inc/Helper/LockFree.h:108-139 | Saving and loading into an empty vector with room gives the same contents |
| BlockVector.Blocks.OverlongIsAccepted | AnnService/inc/Helper/LockFree.h:50-52 | A vector limited to one element takes two |
| Records.DecodeEncode | AnnService/src/Core/MetadataSet.cpp:30-38 | Little-endian integers within their width read back |
| Records.EncodeByte | AnnService/src/Core/MetadataSet.cpp:30-38 | The byte at place i counts 256^i |
| Records.IndexLayout | AnnService/src/Core/MetadataSet.cpp:210-216 | The index stream is four bytes with the number of records and then eight for each place where a record starts or the last one ends |
| Records.ParseIndexFile | AnnService/src/Core/MetadataSet.cpp:281-291 | An index stream written for records reads back their number and offsets |
| Records.RecordBytes | AnnService/src/Core/MetadataSet.cpp:152-158 | Record i is the bytes between offsets i and i + 1 |
| Records.OffsetsSlice | AnnService/src/Core/MetadataSet.cpp:292-298 | The offsets of a range are those within it less the first |
| Records.StoredGet | AnnService/src/Core/MetadataSet.cpp:368-382 | Reading across the boundary of holder and tail gives record i |
| Records.StreamsDetermine | AnnService/src/Core/MetadataSet.cpp:210-235 | Equal bytes and offsets mean equal records |
| Records.LostBetween | AnnService/src/Core/MetadataSet.cpp:149-265 | After a file save with additions in between, record i reads back whatever the new buffer held exactly when it is not one of those added in between, or is empty; one of those reads as the buffer |
| Records.ConsistentIff | AnnService/src/Core/MetadataSet.cpp:237-265 | Such a save leaves a consistent set exactly when the records added in between hold no bytes |
| Metadata.FileSet.Open | AnnService/src/Core/MetadataSet.cpp:113-143 | Any readable index is taken; streams saved for records give those records |
| Metadata.FileSet.GetMetadata | AnnService/src/Core/MetadataSet.cpp:149-164 | Record i, from the file or from memory |
| Metadata.FileSet.Add | AnnService/src/Core/MetadataSet.cpp:203-208 | The record is appended |
| Metadata.FileSet.BufferSize | AnnService/src/Core/MetadataSet.cpp:197-201 | The bytes that saving writes to either stream |
| Metadata.FileSet.SaveStreams | AnnService/src/Core/MetadataSet.cpp:210-235 | The streams hold the records' bytes and their index |
| Metadata.FileSet.SaveFiles | AnnService/src/Core/MetadataSet.cpp:237-265 | The files hold the records from before; the set stays consistent exactly when what was added in between is empty |
| Metadata.FileSet.SaveAndReopen | AnnService/src/Core/MetadataSet.cpp:113-265 | With no addition in between the set keeps its records, and a set opened on the files has the same |
| Metadata.MemSet.constructor | AnnService/src/Core/MetadataSet.cpp:267-276 | An empty set with the given limit |
| Metadata.MemSet.GetMetadata | AnnService/src/Core/MetadataSet.cpp:368-382 | Record i, from the holder or from the tail |
| Metadata.MemSet.BufferSize | AnnService/src/Core/MetadataSet.cpp:416-421 | The bytes that saving writes to either stream |
| Metadata.MemSet.Add | AnnService/src/Core/MetadataSet.cpp:423-433 | The record is appended, or, when the offsets are full, rolled back and nothing changes |
| Metadata.MemSet.SaveStreams | AnnService/src/Core/MetadataSet.cpp:435-456 | The streams hold the records' bytes and their index |
| Metadata.MemSet.Init | AnnService/src/Core/MetadataSet.cpp:278-308 | Streams saved for records give all from the start on for a negative number, else as many as wanted or there are, and none past the end, whatever the limit; the set is consistent exactly when it had no tail; an unreadable index fails |
| Metadata.MemSet.SaveAndLoad | AnnService/src/Core/MetadataSet.cpp:278-456 | Saving and loading gives all records from the start on for a negative number, else as many as wanted or there are, and none past the end |
| Metadata.MemSet.Refine | AnnService/src/Core/MetadataSet.cpp:14-24 | The new set holds the records at the given indices in order, as many as its limit takes |
| Metadata.MemSet.RefineStreams | AnnService/src/Core/MetadataSet.cpp:26-47 | The streams hold the records at the given indices in order |
| Metadata.GetMetadataOffsets | AnnService/src/Core/MetadataSet.cpp:89-111 | The offsets are the first boundaries of the text behind its delimiters, none left out, and it fails exactly when there are too few |
| Metadata.SaveDuringAdds | AnnService/src/Core/MetadataSet.cpp:435-456 | A save overlapping additions, whenever it reads what, writes exactly the records complete when it began |
| ResourceManager.StepKeeps | AnnService/inc/Socket/ResourceManager.h:52-149 | Every atomic step keeps the invariant while there are fewer than 2^32 - 1 Adds |
| ResourceManager.Safety | AnnService/inc/Socket/ResourceManager.h:52-149 | In every such run an id is handed out at most once and with its own resource, a live timed id has exactly one timer or one Add about to push it, and the counter is the list length less the uncounted pushes modulo 2^32 |
| ResourceManager.Conservation | AnnService/inc/Socket/ResourceManager.h:52-149 | In every such run each id given out is in exactly one place: with its Add, in the map, taken by a Remove, or handed out |
| ResourceManager.OnlyWhenAsked | AnnService/inc/Socket/ResourceManager.h:86-149 | What was removed was named by a Remove, and what was handed out was asked for or had a timeout |
| ResourceTimers.TimersGetThrough | AnnService/inc/Socket/ResourceManager.h:52-149 | From the end of every such run the Adds under way and the checker can, without another call, hand out every resource with a timeout that was not removed |
| Aggregator.AggregationCount | AnnService/src/Aggregator/AggregatorExecutionContext.cpp:38-42 | In every interleaving there is no aggregation before the n-th finish, one at the n-th, a second at the next, and never a third |
| Aggregator.AggregatesOnce | AnnService/src/Aggregator/AggregatorService.cpp:245-316 | With no failed send there is at most one aggregation, only with every slot filled, and exactly one when all n callbacks have finished |
| Aggregator.OnceIffNoFailure | AnnService/src/Aggregator/AggregatorService.cpp:268-276 | Once nothing is left to happen there was one aggregation exactly when no send failed, else two |
| Aggregator.EarlyAggregation | AnnService/src/Aggregator/AggregatorService.cpp:250-276 | A run of two servers with one failed send aggregates with an empty slot |
| Aggregator.AggregateResults | AnnService/src/Aggregator/AggregatorService.cpp:351-364 | The merged results are those of the filled slots |
| Aggregator.MergedExactly | AnnService/src/Aggregator/AggregatorService.cpp:351-364 | The merged list has each result of each filled server once, behind those of the filled servers before it, and nothing else |
| Aggregator.MergedInOrder | AnnService/src/Aggregator/AggregatorService.cpp:352-364 | A server's results come right after those of the servers before it |
| SearchRequest.HandedWasOpen | AnnService/src/Aggregator/AggregatorService.cpp:284-311 | A callback of a request that the manager hands out, to a response or a timer, had not been called before |
| SearchRequest.Refines | AnnService/src/Aggregator/AggregatorService.cpp:245-316 | Every run of manager and request, any response, timer and other request included, is a run of the aggregator in which each callback is taken out at most once |
| SearchRequest.AggregatesOnce | AnnService/src/Aggregator/AggregatorService.cpp:245-316 | On top of the manager, with no failed send: at most one aggregation, every slot filled, and one exactly when all callbacks have finished |
| SearchRequest.AggregationCount | AnnService/src/Aggregator/AggregatorService.cpp:245-316 | On top of the manager, failed sends included: no aggregation before the n-th finish, one at it, two after it, and at most 2n finishes |
| SearchRequest.AggregatesInTheEnd | AnnService/src/Aggregator/AggregatorService.cpp:245-316 | When no callback of the request is left with an Add or in the map, none was removed and those called have counted, there was exactly one aggregation, or exactly two if a send failed |
| WaitSignal.StepKeeps | AnnService/src/Helper/Concurrent.cpp:38-59 | Every atomic step keeps the mutex, the count and every sleeper's coming notification |
| WaitSignal.NoLostWakeUp | AnnService/src/Helper/Concurrent.cpp:38-59 | In no interleaving are all FinishOne calls over while a Wait call sleeps |
| WaitSignal.NoDeadlock | AnnService/src/Helper/Concurrent.cpp:38-59 | Where no call can take a step all calls have returned |
| WaitSignal.RunsEnd | AnnService/src/Helper/Concurrent.cpp:38-59 | Every run ends within a fixed number of steps, so every Wait call returns |
| WaitSignal.NoEarlyReturn | AnnService/src/Helper/Concurrent.cpp:38-46 | Without spurious wake-ups no Wait call returns before the count is zero |
| WaitSignal.EarlyReturn | AnnService/src/Helper/Concurrent.cpp:41-45 | With one spurious wake-up a Wait call returns with an item unfinished |
| MultiIndexScan.WeightedRank | AnnService/src/Core/MultiIndexScan.cpp:41-49 | The loop computes the weighted sum of the distances |
| MultiIndexScan.EachByItsWeight | AnnService/src/Core/MultiIndexScan.cpp:41-49 | Changing one distance changes the score by the difference times its own weight |
| MultiIndexScan.NoDistanceNoSum | AnnService/src/Core/MultiIndexScan.cpp:41-49 | Distances of zero give a score of zero |
| MultiIndexScan.Scan.ComputeScore | AnnService/src/Core/MultiIndexScan.cpp:113-134 | The score of an id does not depend on the index that found it |
| MultiIndexScan.Scan.Offer | AnnService/src/Core/MultiIndexScan.cpp:138-154 | The queue stays the k best of the seen ids, and the drop counter counts consecutive drops |
| MultiIndexScan.Scan.Round | AnnService/src/Core/MultiIndexScan.cpp:91-156 | A round takes one id from each index, or stops at one that has no more |
| MultiIndexScan.Scan.CheckStop | AnnService/src/Core/MultiIndexScan.cpp:160-172 | The stop tests, with the timer overruling an exhausted index |
| MultiIndexScan.Scan.ScanAll | AnnService/src/Core/MultiIndexScan.cpp:88-173 | The loop ends on finite iterators without the timer, and for one of the stated reasons |
| MultiIndexScan.Scan.Next | AnnService/src/Core/MultiIndexScan.cpp:85-194 | Each call gives the next of the answer, which is the k best of the seen ids in ascending order |
| MultiIndexScan.Scan.TakeAll | AnnService/src/Core/MultiIndexScan.cpp:174-193 | The calls together give exactly the min(k, seen) best ids, each once, smallest score first |
| MultiIndexScan.Scan.GlobalTopK | AnnService/src/Core/MultiIndexScan.cpp:96-101 | If an index covering all ids has no more, the answer is the exact global top k |
| Base64.TablesInverse | AnnService/src/Helper/Base64Encode.cpp:13-37 | The two tables are inverse to each other and the pad is in neither |
| Base64.TableIsAlphabet | AnnService/src/Helper/Base64Encode.cpp:13-20 | The table is capital letters, small letters, digits, plus and slash, and the pad the equality sign |
| Base64.SameBits | AnnService/src/Helper/Base64Encode.cpp:41-81 | The four six-bit values are the 24 bits of the three bytes in order |
| Base64.EncodedLength | AnnService/src/Helper/Base64Encode.cpp:215-218 | The encoding has exactly the length of its buffer |
| Base64.DecodedLength | AnnService/src/Helper/Base64Encode.cpp:220-223 | The decoding has the length of its buffer less the pads |
| Base64.DecodeEncoded | AnnService/src/Helper/Base64Encode.cpp:41-213 | Decoding undoes encoding on every nonempty input |
| Base64.EncodeDecoded | AnnService/src/Helper/Base64Encode.cpp:165-210 | Every accepted text encodes back to itself, except exactly the one-pad texts with nonzero spare bits, which differ in the last data character only |
| Base64.LooseIsAccepted | AnnService/src/Helper/Base64Encode.cpp:186-210 | Every input that needs one pad has a second text that decodes to it |
| Base64.EncodeTo | AnnService/src/Helper/Base64Encode.cpp:41-81 | The buffer form writes the encoding and nothing else |
| Base64.EncodeStream | AnnService/src/Helper/Base64Encode.cpp:83-125 | The stream form writes the encoding |
| Base64.DecodeTo | AnnService/src/Helper/Base64Encode.cpp:127-213 | The decoder accepts exactly the decodable texts and writes their bytes |
| QueryText.ScanOption | AnnService/src/Server/QueryParser.cpp:94-116 | A printed option closes the token before it and adds one pair of pointers |
| QueryText.ScanQuery | AnnService/src/Server/QueryParser.cpp:55-140 | A printed query leaves exactly its Base64 token and its options in the buffer |
| QueryText.OptionsBack | AnnService/src/Server/QueryParser.cpp:97-115 | The strings at the pointers are the printed names and values |
| Query.OptionNamesAre | AnnService/src/Server/SearchExecutionContext.cpp:31-62 | The names of the options, letter by letter |
| Query.PrintedForm | Wrappers/src/ClientInterface.cpp:203-215 | The text of a query without parameters, part by part |
| Query.PrintedParam | Wrappers/src/ClientInterface.cpp:216-223 | A parameter adds a space, a dollar sign, its name, a colon and its value |
| Query.IntBack | AnnService/src/Server/SearchExecutionContext.cpp:62-65 | Every 32-bit result number reads back from its print |
| Query.PrintedPlainly | Wrappers/src/ClientInterface.cpp:214 | A printed number has a minus sign exactly if negative, and no leading zero |
| Query.TypeBack | AnnService/src/Server/SearchExecutionContext.cpp:54-57 | Every value type reads back from its name |
| Query.TypeSizesAre | AnnService/src/Server/SearchExecutionContext.cpp:100-106 | The sizes of the value types are the bits in their names |
| Query.NamesBack | AnnService/src/Server/SearchExecutionContext.cpp:31-53 | Index names joined by commas come apart again |
| Query.IndexNamesArrive | AnnService/src/Server/SearchExecutionContext.cpp:31-53 | Index names sent as one parameter, its name in any case, are added in order whatever the other parameters are |
| Query.StandardExtracted | AnnService/src/Server/SearchExecutionContext.cpp:54-65 | The three options every query carries set the three fields |
| Query.ParamsExtracted | AnnService/src/Server/SearchExecutionContext.cpp:27-69 | Unreserved parameters leave those fields alone |
| Query.QueryRoundTrip | Wrappers/src/ClientInterface.cpp:203-225 | Printing, parsing in place, extracting and decoding give back the bytes, the dimension, the result number, the metadata flag and all parameters |
| Query.EmptyVectorFails | AnnService/src/Server/SearchExecutionContext.cpp:89-110 | An empty vector parses to an empty token, which is refused |
| QueryService.FindElements | AnnService/src/Server/QueryParser.cpp:147-166 | The elements are exactly the starts of the runs between begin and end, in order |
| QueryService.Parser.Parse | AnnService/src/Server/QueryParser.cpp:22-174 | The in-place loop leaves the buffer and the pointers of the fold over the text and never fails; a used parser keeps its Base64 token when the text has none |
| QueryService.Split | AnnService/src/Server/SearchExecutionContext.cpp:33-52 | The index names are the nonempty pieces between commas |
| QueryService.Context.ExtractOption | AnnService/src/Server/SearchExecutionContext.cpp:27-69 | The fields after all options, in order |
| QueryService.Context.ExtractBase64 | AnnService/src/Server/SearchExecutionContext.cpp:89-110 | The vector and its dimension, or a refusal for what does not decode or does not divide |
| QueryService.Client.SetSearchParam | Wrappers/src/ClientInterface.cpp:65-84 | A name is kept in lower case, an empty value removes, an empty name does nothing, and the parameters stay fit to be sent exactly when the call is well formed |
| QueryService.CallKeepsGood | Wrappers/src/ClientInterface.cpp:65-84 | A call keeps the parameters fit to be sent exactly when it sets nothing, or a name without spaces and inner separators that is not reserved, and a value without spaces |
| QueryService.CallsGiveGood | Wrappers/src/ClientInterface.cpp:65-84 | Parameters set by any number of well-formed calls are fit to be sent |
| QueryService.Client.CreateSearchQuery | Wrappers/src/ClientInterface.cpp:203-225 | The printed query lists every parameter once, in some order |
| QueryService.Deliver | AnnService/src/Server/SearchExecutionContext.cpp:22-111 | From the client's parameters to the server's context everything arrives unchanged |
| Capacity.PartsAreUnits | AnnService/src/Core/VectorIndex.cpp:1072-1078 | The parts of the memory estimate add up to one unit per vector |
| Capacity.CountIsLargest | AnnService/src/Core/VectorIndex.cpp:1030-1051 | The count is the largest number of whole blocks of vectors that fit, with the byte sizes of the code's types |
| Capacity.UsageIsWholeBlocks | AnnService/src/Core/VectorIndex.cpp:1053-1079 | The usage is that of the fewest whole blocks that hold the vectors |
| Capacity.FitsIff | AnnService/src/Core/VectorIndex.cpp:1030-1079 | For BKT and KDT, n vectors need at most m bytes exactly when n is at most the count for m bytes |
| Capacity.RoundTrips | AnnService/src/Core/VectorIndex.cpp:1030-1079 | The count for the memory of n vectors is at least n, and the memory for the count of m bytes at most m |
| Capacity.OtherAlgo | AnnService/src/Core/VectorIndex.cpp:1044-1071 | For any other algorithm the equivalence holds for no vectors only |

## Left out

- k-means iterations, center refinement, distance kernels, quantizers and index internals: distances and result
  iterators are given functions and sequences, and an iterator's distance for an id is the one its index reports.
- Floating-point rounding: all distances, weights, ratios and thresholds are reals.
- Threads of the partitioner run their shards one after the other; that any interleaving gives the same is proved for
  the tallies (`InterleavingIrrelevant`) and rests on disjoint rows elsewhere. The weighted counts, distance sums and
  new centers that the same loops add up are not modelled.
- MPI itself: a channel is one queue per sender in place of one per message tag, a reduction is a sum, and 32-bit
  overflow of the counts it adds is not modelled.
- Partition.Process: reading the data, the k-means iterations before the rounds, saving labels and centers, and the
  skipping of a cluster whose file is already there.
- PartitionRounds.QuotaNeverNegative: a first limit that the cast makes negative is excluded (`ConfigOk`), since the
  drop loop then starts before its segment; the product hardcut * capacity stays below 2^64, and later limits are not
  cast, which `LaterLimitsFit` justifies for ranks whose vectors and part of the capacity fit an int.
- MergeOverfill.MergedBoundIff: for first limits that fit an int.
- RankProcess.Rank.HardAssign: labels are 16 bits wide, so at most 32767 clusters are assumed (`ConfigOk`).
- RankProcess.Rank.SortItems: sorts by insertion in place of `std::sort`; the order is total on a round's items.
- SelectHead.SelectInternal: the sort of the children is any fixed function that sorts by descending size, so equal
  sizes may be in any order as long as it is always the same one.
- `SelectHeadDynamically`, which retries at random and is not called by `SelectHead`, and the coverage statistics.
- BlockVector.Blocks.Reserve: the block length is not limited to 31 bits, and a block size of 0, whose logarithm does
  not exist, is excluded; memory never runs out. The fields of a vector that was never reserved are zero.
- BlockVector.Blocks.Load: sums of sizes stay below 2^64.
- Metadata.MemSet.Init: a negative start and a negative stored count, which read outside the arrays, are excluded and
  counted as unreadable.
- Metadata.MemSet.SaveStreams: write failures of the streams, and the renaming of temporary files.
- The single-file load path that passes one stream as both metadata streams.
- Metadata.GetMetadataOffsets: an empty text, for which it reads before the text.
- Records.StoredGet: offsets stay below 2^64 bytes in total.
- SearchRequest.Refines: as there, for runs with fewer than 2^32 - 1 Adds of all requests together.
- ResourceManager.Safety: clocks are left out, so any timer may run off at any time; a run with 2^32 - 1 Adds or more
  reuses ids.
- Sockets, connections and packets: a response, a timer and a failed send are events that may happen in any order.
- Aggregator.AggregateResults: the packet that is built and sent from the merged results.
- MultiIndexScan.Scan.ScanAll: with the timer the time is a number of rounds after which it is up.
- Base64.DecodeTo: an empty text, which the only callers do not pass, and characters above 127 on platforms with signed
  characters, which would index outside the table.
- QueryService.Context.ExtractBase64: vectors given as separated numbers are tokenised but not converted.
- Query.IntBack: leading white space before a number, which an option value cannot contain.
- Capacity.FitsIff: holds while the memory estimate is below 2^64; negative dimensions and counts are left out.
- Disk access, AIO, SPDK and RocksDB, logging, timing, GPU code, wrappers and scripts.
