# Verified models of the HKV index cores

HKV bundles a Bw-Tree (`BwTree/`) and parts of Masstree (`masstree/`). This project models their
most delicate parts and proves what they are meant to guarantee, for every input, every
interleaving and every run. `dafny verify dfyconfig.toml` checks everything.

## What is modelled

**The Bw-Tree leaf level.** A leaf is an immutable chain of records over a base array (`LeafChains`).
The meaning of a chain is the map obtained by replaying its records (`Contents`); low key, high key,
depth and item count are the metadata the nodes carry. On this meaning rest

- both hint-narrowed searches (`NavigateLeafNode`, `CollectValues`), which agree with a lookup in the
  replayed map and return the exact place of the key in the base array below it;
- consolidation (`LeafConsolidation`), with the in-place scratch structures it really uses: the sorted
  small set (`SortedSmallSets`) and the bloom filter in front of an exact set (`BloomFilters`);
- the protocol of threads that load a mapping-table entry and install data records, consolidated
  leaves, splits, removes and merges by compare-and-swap (`LeafProtocol`). A run is any sequence of
  such steps by any number of threads;
- iteration, page by page: as a class over a tree whose contents stand still although removals of
  leaves may be pending (`ForwardIteration`), and inside any run of the protocol (`ConcurrentIteration`).

**The Bw-Tree inner level.** `InnerChains` gives the separators a chain of insert, delete, split and
merge records stands for. `NavigateInnerNode` with its early exits and narrowed binary search, the
separator search used when a child's split or removal is posted (`FindSeparator`), consolidation
(`InnerConsolidation.CollectAllSepsOnInner`) and `FindLeftSibling` are proved against it.

**Bw-Tree infrastructure.** Epoch reclamation with its two-step join and one-by-one slot scan: that
nothing is freed too early (`EpochReclamation`, plus the linked garbage list as a class), and what a
collection computes, frees and keeps (`EpochCollection`); the abort node that blocks a parent during a
removal (`AbortNodes`), the lock-free bump allocator (`ChunkAllocation`) and the versioned stack with
one pusher and many poppers (`AtomicStacks`).

**Masstree.** The concurrent doubly linked leaf list, step by step, and its single-threaded version
(`LeafLinks`), with a proof that its calls cannot block each other (`LeafLinkProgress`); the packed
permutation on its 64-bit word (`PackedPermutations`) as a refinement of sequence operations
(`PermutedNodes`), and on the 32-bit word used for widths up to 7 (`NarrowPermutations`); binary and
linear search through it (`KeySearch`); the JSON printer and the explicit-stack parser (`JsonText`);
the language the parser accepts, as a grammar that relates text and tree (`JsonNumerals`,
`JsonGrammar`); and the insertion-ordered hash table behind JSON objects (`JsonObjects`).

`Ordered` holds the vocabulary shared by the tree modules: sorted arrays of pairs, the maps they
denote, bound searches, and the merge of a sorted array with sorted changes.

### How to read the results

Each concurrent core is a state machine: `State`, `Action`, `Enabled`, `Next`, an invariant `Inv`,
`StepSafe` (every enabled step keeps it) and `Run...` lemmas about all states of all runs. Imperative
code keeps its form: methods with loops, classes with `modifies`, each proved against a function of
its inputs or of the old state.

Where the code and its documentation differ, the model follows the code:

- `rotate(i, j)` of the permuter is documented as a rotation of the entries in use. The code rotates
  everything from `i` to the full width. `PermutedNodes.RotateComment` proves that the two agree if and
  only if `i == j` or the node is full.
- `insert_selected(di, si)` is documented without an order between its arguments.
  `PermutedNodes.InsertSelectedExactly` proves that it performs the documented move if and only if
  `di <= si`. With `si < di` the code overlays the element at `di` with the bits of the one at `si`;
  `PermutedNodes.ApplyValid` proves that the elements stay a permutation exactly if those bits were
  there already, and `InsertSelectedBreaks` and `RotateBreaks` give concrete inputs.
- `erase(key)` of a JSON object indexes the bucket array without looking whether it exists, unlike
  `find`. On an object that has never had an insertion the index is out of bounds. The model makes this
  an outcome of its own: `JsonObjects.BucketInside` and `EraseKey` prove that it occurs if and only if
  there is no bucket array, `EraseFromNew` shows it on a new object, and `RunOperations` proves that a
  sequence of operations avoids it if and only if no key is erased by name before the first insertion.
- The JSON parser names 2048 as its largest depth and compares the size of its pointer stack with it for
  equality. The root has no entry on that stack, and where a member's value begins the stack is one
  larger. `JsonGrammar.RoundTripExactly` proves that a printed tree is read back if and only if none of
  its containers begins at exactly that size (`Opens`). Trees of depth 2048 or less are always read back
  (`JsonText.RoundTrip`); arrays alone nest to 2049 (`ArraysNest`); with one object in between no depth
  is too much (`MixedNest`).
- The number scanner also takes a sign directly before a point or an exponent, as in `-.5`, which JSON
  does not have. `JsonNumerals.IsNumeral` says exactly which numbers it takes.

### Assumptions

- Keys are integers, standing for any total order; the tree is built with unique keys and with the
  search shortcut on, as the sources configure it (`BwTree/bwtree.h:70`, `BwTree/bwtree.h:226`).
- Atomic operations are sequentially consistent. The epoch counter and the stack's version do not wrap.
- A compare-and-swap in `LeafProtocol` compares chains as values. It succeeds at least whenever the
  pointer comparison of the code does. Where the code's comparison fails although the values agree, the
  code starts over; in the model that is a new `Load`, which is enabled at any time.
- NodeIDs are not recycled; the push that would recycle them is disabled in the source
  (`BwTree/bwtree.h:3520-3527`). The entry of a removed leaf is not cleared, since the epoch scheme does
  that only once no thread can read it.
- A traversal enters the leaf level at a published leaf that starts at or before its key. On a tree
  that stands still this is proved of the inner search (`ForwardIteration.LeadsToStart`); during a run of
  the leaf protocol it is the one thing taken from the inner levels.
- Inner insert records name their true successor separator, and delete records their true predecessor
  and successor, as the code that builds them arranges.
- String encoding and scanning in JSON are a pair of functions. The grammar holds for every pair; the
  round trip needs one law, `Inverse`: scanning an encoded string gives it back.
  `JsonText.EscapingInverse` shows that the law can be satisfied.
- The negation of a signed 64-bit number wraps around.

## Model

| member | source | states |
|---|---|---|
| `LeafProtocol.RunLinearizable` | BwTree/bwtree.h:8519-8581 | In every state of every run the leaves reached from the first leaf cover each key exactly once, and the covering leaf answers for that key what the successful data updates, applied one after the other, say |
| `LeafProtocol.SnapshotLinearizes` | BwTree/bwtree.h:8519-8581 | A lookup, a refused insertion and a refused deletion are decided on a snapshot; whatever other threads have done since, the snapshot answers what the updates committed when it was taken say |
| `LeafProtocol.NextIsThere` | BwTree/bwtree.h:4245-4280 | The next leaf read from a published leaf is mapped in every later state of the run and still starts at the high key read |
| `LeafProtocol.CommittedAt` | BwTree/bwtree.h:5126-5399 | In every state of every run a published leaf answers for its range what the updates committed so far say |
| `LeafProtocol.StepSafe` | BwTree/bwtree.h:7066-7147 | Every step of any thread keeps the invariant; the stored map changes only at a successful data CAS, by exactly that key; an insert record wins only if the key is absent from the whole tree, an update or delete record only if it is present |
| `LeafProtocol.RunInvariant` | BwTree/bwtree.h:8478-8511 | Every state of every run has one chain of leaves that tiles the key space and stores the committed map |
| `LeafProtocol.LowKeyStable` | BwTree/bwtree.h:7611-7775 | No step changes the low key of any mapped NodeID |
| `LeafProtocol.RunLowKey` | BwTree/bwtree.h:7611-7775 | Between any two states of a run a NodeID stays mapped and keeps its low key |
| `LeafProtocol.RunRemoved` | BwTree/bwtree.h:7709-7775 | From a winning remove CAS on, the entry of that NodeID is the remove record over the chain it was posted on, in every later state of the run |
| `LeafProtocol.ConsolidationSettles` | BwTree/bwtree.h:8856-8918 | After a winning consolidation the entry is a base leaf without records, with the same contents and exactly the recorded number of items |
| `LeafProtocol.NoGap` | BwTree/bwtree.h:4245-4280 | Whatever tiles from a low bound on has a leaf in range for every key above that bound |
| `LeafProtocol.NoOverlap` | BwTree/bwtree.h:4245-4280 | Two listed leaves that are both in range for a key are the same leaf |
| `LeafProtocol.TilesUnique` | BwTree/bwtree.h:4245-4280 | The list of leaves reached by next IDs is determined by the mapping table |
| `LeafProtocol.LeafDecides` | BwTree/bwtree.h:5126-5399 | Looking a key up in its covering leaf equals looking it up in the whole stored map, so a check made on one leaf holds for the tree |
| `LeafProtocol.StoredData` | BwTree/bwtree.h:8519-8581 | A record posted on the leaf that covers its key changes the whole stored map at that key and nowhere else |
| `LeafProtocol.InvReplaceStep` | BwTree/bwtree.h:8856-8918 | A winning data, consolidation or remove CAS keeps the invariant, and only the data CAS changes the stored map |
| `LeafProtocol.InvInstall` | BwTree/bwtree.h:4028-4038 | Installing the new sibling under a fresh NodeID, before anyone can see it, changes neither the leaf list nor the stored map |
| `LeafProtocol.InvSplit` | BwTree/bwtree.h:7611-7708 | A winning split CAS puts the new sibling right after its leaf in the list and leaves the stored map alone |
| `LeafProtocol.InvMerge` | BwTree/bwtree.h:7066-7147 | A winning merge CAS drops the removed leaf from the list and leaves the stored map alone |
| `LeafProtocol.FindSplitPoint` | BwTree/bwtree.h:3200-3244 | The index is the one split point of the items (`IsSplitPoint`): it separates two different keys, is the closest such place on its side of the middle, keeps the scanned side above the merge threshold, and is -1 exactly if neither side has one; with unique keys it is the middle, or -1 for a leaf too small |
| `LeafProtocol.SplitPointUnique` | BwTree/bwtree.h:3200-3244 | Every array has at most one split point, so what `IsSplitPoint` says determines the index |
| `LeafProtocol.GetSplitSibling` | BwTree/bwtree.h:3273-3323 | The sibling is the part of the leaf from its split point on, starts at that key and ends where the leaf ended; there is none exactly if the split point is -1; for a leaf the protocol splits, this is the sibling it installs |
| `LeafProtocol.SplitBalanced` | BwTree/bwtree.h:7611-7708 | When a leaf is split, the sibling begins at the split point of the items, and both it and what is left of the leaf, also after consolidation, hold more items than the merge threshold |
| `LeafProtocol.SplitNotRemoved` | BwTree/bwtree.h:7709-7775 | After a winning split, neither the new sibling nor the consolidated left half can be removed for being too small |
| `LeafProtocol.SplitOk` | BwTree/bwtree.h:3273-3323 | The split record and the sibling are well formed, meet at the split key, and together hold exactly the leaf's contents; where the split lies is said by `SplitBalanced` |
| `LeafProtocol.MergeOk` | BwTree/bwtree.h:7066-7147 | The merge record is well formed, spans from the left leaf's low key to the removed leaf's high key and holds the contents of both |
| `LeafProtocol.SplitTiles` | BwTree/bwtree.h:7611-7708 | Replacing a leaf by two halves keeps the tiling and the stored map |
| `LeafProtocol.MergeTiles` | BwTree/bwtree.h:7066-7147 | Absorbing the right neighbour keeps the tiling and the stored map, and the neighbour is never the first leaf |
| `LeafProtocol.InitInvariant` | BwTree/bwtree.h:3866-3942 | The freshly built tree satisfies the invariant and stores nothing |
| `LeafChains.NavigateLeafNode` | BwTree/bwtree.h:5420-5694 | For every well-formed chain and covered key, the hint-narrowed search returns the lookup in the replayed map, and an index pair that is the key's lower bound and presence in the base array below it, also across merges |
| `LeafChains.CollectValues` | BwTree/bwtree.h:5126-5399 | The value-collecting search returns the one value of the replayed map, or none |
| `LeafChains.BaseLookup` | BwTree/bwtree.h:5126-5399 | Binary search narrowed to any window that brackets the key finds the same place as over the whole array, and decides presence |
| `LeafChains.MergeSide` | BwTree/bwtree.h:5420-5694 | At a merge record, going to the side the merge key selects does not change the answer |
| `LeafChains.ItemCountExact` | BwTree/bwtree.h:1659-1865 | The item count kept incrementally in the nodes is the size of the replayed map |
| `LeafChains.ContentsInRange` | BwTree/bwtree.h:1659-1865 | Every replayed key lies between the chain's low and high key |
| `LeafChains.ProperRange` | BwTree/bwtree.h:1659-1865 | A chain's low key is strictly below its high key when both exist |
| `LeafConsolidation.CollectAllValuesOnLeaf` | BwTree/bwtree.h:5914-6017 | Consolidation of any well-formed chain yields a well-formed base leaf with the same bounds, exactly the replayed contents in key order, and as many items as the recorded count |
| `LeafConsolidation.CollectAllValuesOnLeafRecursive` | BwTree/bwtree.h:6040-6285 | For a chain below pending newer records: appends exactly the outcome of those records over the chain below its high key, leaves exactly the records beyond it pending, and never uses more than depth scratch slots |
| `LeafConsolidation.CollectMerged` | BwTree/bwtree.h:6258-6275 | At a merge, collecting left then right with the shared scratch sets gives the outcome of the merged chain |
| `LeafConsolidation.CollectBase` | BwTree/bwtree.h:6054-6170 | At a base leaf, cutting at the high key and weaving in the records by their recorded indices gives the sorted outcome, and pops exactly the records used |
| `LeafConsolidation.DrainBase` | BwTree/bwtree.h:6105-6169 | The copy-and-merge loop driven by index pairs equals the merge of the two sorted sequences |
| `LeafConsolidation.DrainIndex` | BwTree/bwtree.h:6131-6163 | The inner loop over records that share one index preserves that merge |
| `LeafConsolidation.EndBelow` | BwTree/bwtree.h:6076-6104 | The cut found in the scratch set separates exactly the keys below the high key from the others |
| `LeafConsolidation.PushRecord` | BwTree/bwtree.h:6171-6244 | A record met on the way down is kept if and only if no newer record has its key, and the seen-set gains the key either way |
| `LeafConsolidation.MergeOutcome` | BwTree/bwtree.h:6258-6275 | Splitting pending records at the boundary and applying them side by side equals applying them to the merged chain |
| `LeafConsolidation.ConsolidatedLeaf` | BwTree/bwtree.h:5914-6017 | Sorted items with the right map are a well-formed leaf whose length is the recorded item count |
| `SortedSmallSets.SortedSmallSet.constructor` | BwTree/sorted_small_set.h:33-41 | An empty set over a given buffer |
| `SortedSmallSets.SortedSmallSet.Insert` | BwTree/sorted_small_set.h:49-79 | In-place insertion at the first place not less; an equal element already there wins |
| `SortedSmallSets.SortedSmallSet.InsertNoDedup` | BwTree/sorted_small_set.h:88-101 | In-place insertion that always adds one element |
| `SortedSmallSets.SortedSmallSet.PopFront` | BwTree/sorted_small_set.h:129-133 | Removes and returns the first element, leaving the rest |
| `SortedSmallSets.SortedSmallSet.GetFront` | BwTree/sorted_small_set.h:139-141 | Returns the first element |
| `SortedSmallSets.SortedSmallSet.Invalidate` | BwTree/sorted_small_set.h:156-158 | Empties the set |
| `SortedSmallSets.InsertFirstSorted` | BwTree/sorted_small_set.h:49-79 | Seen as a map, insertion keeps the order and adds the key only if it is new |
| `SortedSmallSets.InsertKeepSorted` | BwTree/sorted_small_set.h:88-101 | Seen as a map, insertion of a new key keeps the order and adds exactly that key |
| `BloomFilters.BloomFilter.constructor` | BwTree/bloom_filter.h:89-101 | An empty filter over a given value buffer |
| `BloomFilters.BloomFilter.Insert` | BwTree/bloom_filter.h:137-158 | Adds exactly the value, keeping the bit-per-value invariant |
| `BloomFilters.BloomFilter.Exists` | BwTree/bloom_filter.h:170-197 | The answer is exact: no false positives and no false negatives |
| `Ordered.LowerBound` | BwTree/bwtree.h:5126-5399 | Binary search returns the split between keys below and keys not below |
| `Ordered.UpperBound` | BwTree/bwtree.h:4322-4340 | Binary search returns the split between keys not above and keys above |
| `Ordered.MergeCorrect` | BwTree/bwtree.h:6105-6169 | Merging sorted items with sorted changes is sorted and denotes the items overridden by the changes |
| `ForwardIteration.KeysIncrease` | BwTree/bwtree.h:10755-10783 | Page loads that each cover their start key and start at the high key of the page before deliver strictly increasing keys, none below the start; runs are shown to make such loads by `ConcurrentIteration.IterationLoads` |
| `ForwardIteration.NothingSkipped` | BwTree/bwtree.h:10575-10649 | For every key such loads have passed, the iteration delivers exactly what the one chain that covered it held |
| `ConcurrentIteration.IterationLinearizes` | BwTree/bwtree.h:10575-10649 | In every run of the leaf protocol: an iteration delivers strictly increasing keys, and for every key it has gone past it reports what the updates committed at the moment of one of its page loads had left |
| `ConcurrentIteration.IterationLoads` | BwTree/bwtree.h:10575-10649 | In every run, every iteration makes proper page loads: each ends at a leaf that is not being removed, is well formed and covers the key asked for |
| `ConcurrentIteration.WalkArrives` | BwTree/bwtree.h:4245-4280 | In every run, a walk along next ids whose entries are read at different times ends at a leaf that covers the key |
| `ConcurrentIteration.WalkSees` | BwTree/bwtree.h:4245-4280 | Wherever such a walk looks there is a leaf that starts at or before the key, whatever was split, merged or removed between two looks |
| `ForwardIteration.Scan` | BwTree/bwtree.h:10575-10649 | On a tree whose contents stand still, with any removals pending, iterating from a key to the end yields exactly the stored items from that key on, once each and in order, and terminates |
| `ForwardIteration.ForwardIterator.constructor` | BwTree/bwtree.h:10575-10649 | Starts at the least stored item not below the start key, or at the end |
| `ForwardIteration.ForwardIterator.LowerBound` | BwTree/bwtree.h:10575-10649 | Positions at the least stored item not below the key, passing over empty leaves, or at the end if there is none, and leaves the stored map alone |
| `ForwardIteration.ForwardIterator.LoadPage` | BwTree/bwtree.h:10575-10649 | The page loaded covers the key and agrees with the whole stored map on its range; the stored map stays the same although pending removals are completed on the way |
| `ForwardIteration.ForwardIterator.MoveAheadByOne` | BwTree/bwtree.h:10755-10783 | Moves to the least stored item above the current one, or to the end |
| `ForwardIteration.ForwardIterator.NavigateSiblingChain` | BwTree/bwtree.h:4245-4280 | From any leaf that starts at or before the key, walking right and absorbing neighbours that are being removed ends at the leaf covering the key, with the same stored map and no new leaf boundary |
| `ForwardIteration.ForwardIterator.Descend` | BwTree/bwtree.h:6361-6447 | From the parent chain to a leaf that is not being removed and starts at or before the key; a child under removal is left for its left sibling, and this ends |
| `ForwardIteration.ForwardIterator.Absorb` | BwTree/bwtree.h:7066-7147 | Completing a pending removal moves the records to the left leaf and stores the same map with one leaf fewer |
| `ForwardIteration.LeadsToStart` | BwTree/bwtree.h:4402-4590 | The child the inner search leads to is a valid start of the walk along the leaves |
| `ForwardIteration.LeftIsStart` | BwTree/bwtree.h:8205-8435 | So is the left sibling of a child that is being removed, and its separator is strictly smaller |
| `ForwardIteration.InitialParentOk` | BwTree/bwtree.h:3866-3942 | The root and the first leaf of a new tree satisfy what the iterator asks of the inner level, for every key |
| `ForwardIteration.PageSearch` | BwTree/bwtree.h:10575-10649 | The search in a page finds the least stored item not below the start, or shows that all of them lie beyond the page's high key |
| `ForwardIteration.PageStep` | BwTree/bwtree.h:10755-10783 | The next page entry is the least stored item above the current one, or all such items lie beyond the page |
| `InnerChains.NavigateInnerNode` | BwTree/bwtree.h:4402-4590 | For every well-formed chain, the search with early exits and narrowed bounds returns the child of the greatest live separator not above the key, or the low-key child |
| `InnerChains.FindSeparator` | BwTree/bwtree.h:8059-8183 | The separator search returns the live separator equal to the key, or none, and its place in the base array |
| `InnerChains.InsertLeads` | BwTree/bwtree.h:4402-4590 | Leaving early at an insert record is right between the separator and its successor, and going on is right elsewhere |
| `InnerChains.DeleteLeads` | BwTree/bwtree.h:4402-4590 | Leaving early at a delete record is right between its predecessor and successor, and going on is right elsewhere |
| `InnerChains.MergedLeads` | BwTree/bwtree.h:4402-4590 | At a merge, the side the merge key selects leads to the same child |
| `InnerChains.BaseLeads` | BwTree/bwtree.h:4322-4340 | The narrowed binary search in the base array leads to the right child for every bracketing window |
| `InnerChains.ItemCountExact` | BwTree/bwtree.h:1881-2090 | The recorded item count is the number of replayed separators plus the low-key entry |
| `InnerChains.SepsInRange` | BwTree/bwtree.h:1881-2090 | Every replayed separator lies strictly inside the node's range |
| `InnerConsolidation.CollectAllSepsOnInner` | BwTree/bwtree.h:4741-4807 | Consolidation keeps bounds and depth, puts the low-key entry first, follows it with exactly the replayed separators in order, and fills exactly the recorded item count |
| `InnerConsolidation.CollectAllSepsOnInnerRecursive` | BwTree/bwtree.h:4821-5093 | Below pending newer records: appends exactly their outcome over the chain up to its high key, leaves the records beyond pending, and uses at most depth scratch slots |
| `InnerConsolidation.CollectMerged` | BwTree/bwtree.h:5052-5078 | At a merge, collecting left then right gives the outcome of the merged chain, the right low key included |
| `InnerConsolidation.CollectBase` | BwTree/bwtree.h:4837-5006 | At a base node: cut at the high key, skip the low-key entry exactly on the leftmost branch, merge, and pop exactly the records used |
| `InnerConsolidation.MergeInto` | BwTree/bwtree.h:4902-5004 | The two-finger loop equals the merge of the array section with the records |
| `InnerConsolidation.OutcomeSides` | BwTree/bwtree.h:5052-5078 | Splitting pending records at the merge key and applying them side by side equals applying them to the merged node |
| `InnerConsolidation.FindLeftSibling` | BwTree/bwtree.h:8205-8435 | For a live separator key, every mix of records and also after the consolidation a merge triggers: returns the child of the greatest live separator strictly below, or the low-key child |
| `InnerConsolidation.ReadTwo` | BwTree/bwtree.h:8240-8344 | Walking array and records downwards together and taking the second live entry yields the left neighbour |
| `InnerConsolidation.JoinedDescends` | BwTree/bwtree.h:8345-8372 | The descending scratch set keeps the newest record of each key |
| `EpochReclamation.NotFreedWhileActive` | BwTree/bwtree.h:762-784 | In every run, a node unlinked while a thread was active is not freed in any later state up to which that thread stayed active |
| `EpochReclamation.StepSafe` | BwTree/bwtree.h:692-784 | Every step keeps the invariant, although joining is a read then a write and the minimum is scanned slot by slot; what the scan computes and what is freed is said by `EpochCollection.RunCollects` |
| `EpochReclamation.RunInvariant` | BwTree/bwtree.h:692-784 | Every state of every run satisfies the invariant |
| `EpochReclamation.FreeIsSafe` | BwTree/bwtree.h:10833-10870 | When the head of a garbage list is below the computed minimum, no thread holds it any more |
| `EpochReclamation.StaysHolder` | BwTree/bwtree.h:692-720 | A thread active at an unlink stays a holder of that node until it leaves |
| `EpochReclamation.RunGarbageSorted` | BwTree/bwtree.h:10795-10820 | In every state of every run, each thread's garbage list is sorted by epoch and bounded by the global epoch |
| `EpochReclamation.ExpiredComplete` | BwTree/bwtree.h:10833-10870 | On a sorted list, stopping at the first unexpired node frees exactly the expired ones |
| `EpochCollection.RunCollects` | BwTree/bwtree.h:10833-10870 | In every run, whatever others do meanwhile, a collection ends with the thread's list shortened by exactly the prefix that is expired for a bound, all of it freed; the bound is the least of one reading of each slot, each made during the collection |
| `EpochCollection.RunReclaims` | BwTree/bwtree.h:10833-10870 | In every run, if no slot holds an epoch of e or less during a collection, all garbage of the thread up to epoch e is freed by its end and none is left in the list |
| `EpochCollection.ScanFinishes` | BwTree/bwtree.h:762-784 | A thread that has begun to collect finishes by its own steps: one for each slot, at most one for each node in its list, and two more |
| `EpochCollection.AppendCollects` | BwTree/bwtree.h:10795-10820 | Garbage is appended to the thread's own list, and a collection begins exactly when the list is then longer than the threshold |
| `EpochCollection.RunAccounted` | BwTree/bwtree.h:10795-10870 | In every state of every run each unlinked node is in exactly one place: one garbage list, the hands of one thread, or freed; no node is lost and none is freed twice |
| `EpochReclamation.GarbageList.constructor` | BwTree/bwtree.h:462-466 | An empty list: a header whose last pointer is itself |
| `EpochReclamation.GarbageList.AddGarbageNode` | BwTree/bwtree.h:10795-10820 | Appends one node to the linked list, keeping last pointer and count exact |
| `EpochReclamation.GarbageList.PopFirst` | BwTree/bwtree.h:10833-10870 | Unlinks the first node and decrements the count |
| `EpochReclamation.GarbageList.PerformGC` | BwTree/bwtree.h:10833-10870 | Frees exactly the expired prefix in order, keeps the rest linked, and repairs the last pointer when the list runs empty |
| `AbortNodes.RunBlocks` | BwTree/bwtree.h:8006-8041 | In every run, from its installation until its owner removes it the abort node stays in the entry, and the removal writes back exactly the node it covered |
| `AbortNodes.RunSnapshots` | BwTree/bwtree.h:7052-7065 | In every run, the pointer a compare-and-swap expects to find, taken from the current or the parent snapshot, is never an abort node, although a loaded pointer may be one |
| `AbortNodes.RemoveAbortWins` | BwTree/bwtree.h:7960-7990 | The CAS that removes an abort node never fails |
| `AbortNodes.OnlyOwnerUnblocks` | BwTree/bwtree.h:8006-8041 | No action other than the owner's removal changes an entry that holds an abort node |
| `AbortNodes.StepSafe` | BwTree/bwtree.h:6361-6447 | Every step keeps the invariant: abort nodes have distinct owners, and their child is no abort node |
| `AbortNodes.RunInvariant` | BwTree/bwtree.h:6361-6447 | Every state of every run satisfies it |
| `ChunkAllocation.RunRegions` | BwTree/bwtree.h:2201-2321 | In every run, all regions handed out are pairwise disjoint, each lies in one chunk, and no tail falls below the limit by more than threads times the largest request; their sizes are the subject of `RunServed` |
| `ChunkAllocation.RunServed` | BwTree/bwtree.h:2299-2321 | In every run, an allocation that ends has added exactly one region, as the newest, with exactly the requested size, and its thread added none before |
| `ChunkAllocation.RunAccounts` | BwTree/bwtree.h:2216-2235 | In every state of every run, what a chunk's tail has gone down by is the sizes of the regions in the chunk plus what failed subtractions took off it |
| `ChunkAllocation.RequestServed` | BwTree/bwtree.h:2299-2321 | At the end of any run, a thread whose request fits in a new chunk is served by its own steps, at most six for each chunk there is |
| `ChunkAllocation.AllocateAlone` | BwTree/bwtree.h:2247-2321 | From any chunk of a list whose next pointers lead forward, a request that fits is served by the thread alone, growing the list if it must |
| `ChunkAllocation.RunNextOnce` | BwTree/bwtree.h:2247-2287 | In every run, a chunk's next pointer never changes once set |
| `ChunkAllocation.StepSafe` | BwTree/bwtree.h:2216-2235 | Every step keeps the invariant, forgets no region and resets no next pointer |
| `ChunkAllocation.RunInvariant` | BwTree/bwtree.h:2299-2321 | Every state of every run satisfies the invariant |
| `AtomicStacks.RunConserves` | BwTree/atomic_stack.h:260-296 | In every run, what has been pushed is exactly what has been popped plus what is on the stack, counted with multiplicity |
| `AtomicStacks.StepSafe` | BwTree/atomic_stack.h:312-363 | Each step is a LIFO stack step: a commit appends the pushed items, a winning pop returns and removes the top at that moment, anything else changes nothing; when a pop wins is said by `RunPopExactly` |
| `AtomicStacks.RunPopExactly` | BwTree/atomic_stack.h:312-363 | In every run, the compare-and-swap of a pop succeeds if and only if no push began and no other pop won since the top was loaded, and it then returns the item that was on top at the load |
| `AtomicStacks.PopAlone` | BwTree/atomic_stack.h:312-363 | From every reachable state with a non-empty stack and no push under way, a popper alone takes the top item in three steps |
| `AtomicStacks.RunPush` | BwTree/atomic_stack.h:260-296 | In every run, whatever poppers do meanwhile, a push ends with the stack it found when it blocked the top plus exactly its items in order, and the stack is open again |
| `AtomicStacks.PushGoesOn` | BwTree/atomic_stack.h:260-296 | A push under way always has a next step of its own and ends with its last item |
| `AtomicStacks.RunVersions` | BwTree/atomic_stack.h:209-219 | In every run versions never decrease, different non-null tops have strictly increasing versions, and equal versions mean an unchanged top pointer |
| `AtomicStacks.EmptyAnswers` | BwTree/atomic_stack.h:312-363 | A popper can answer "empty" if and only if the stack was empty or a push was under way |
| `AtomicStacks.StepConserves` | BwTree/atomic_stack.h:312-363 | Every single step conserves the items |
| `AtomicStacks.RunInvariant` | BwTree/atomic_stack.h:209-219 | Every state of every run satisfies the invariant |
| `LeafLinks.RunReachable` | masstree/btree_leaflink.hh:39-96 | In every state of every run, a walk over mark-stripped next pointers leads from the head to each published leaf of the list, in list order and past none of them |
| `LeafLinks.RunReachableExactly` | masstree/btree_leaflink.hh:61-69 | A listed leaf can be reached in this way if and only if its publishing write has been made; every leaf that callers may work on can |
| `LeafLinks.RunMarkOwner` | masstree/btree_leaflink.hh:39-48 | In every state of every run a marked next pointer of a listed leaf has exactly one owner |
| `LeafLinks.RunQuiet` | masstree/btree_leaflink.hh:61-96 | Whenever no call is under way, next and prev are inverse, no mark is left, and the list is the one the same calls give one after the other |
| `LeafLinkProgress.RunProgress` | masstree/btree_leaflink.hh:39-96 | In every state of every run in which a call is under way, some call can be finished by its own thread alone in at most five steps, so neighbouring calls never block each other |
| `LeafLinkProgress.PredecessorFree` | masstree/btree_leaflink.hh:81-96 | When every call under way still waits for an edge, the edge into the leaf of the leftmost unlink is unmarked and its prev pointer is right |
| `LeafLinkProgress.EdgeFree` | masstree/btree_leaflink.hh:39-48 | In such a state the edge a call is about to lock is unmarked |
| `LeafLinks.StepSafe` | masstree/btree_leaflink.hh:39-96 | Every step keeps the invariant; the abstract list gains a leaf only when its right neighbour is told, loses one only when its right neighbour is told, and never reorders |
| `LeafLinks.RunInvariant` | masstree/btree_leaflink.hh:39-96 | Every state of every run satisfies the invariant for the list of its history |
| `LeafLinks.LockStep` | masstree/btree_leaflink.hh:39-48 | Marking a next pointer keeps the invariant and gives the edge its owner |
| `LeafLinks.InsertStep` | masstree/btree_leaflink.hh:61-69 | Telling the successor about the new leaf keeps the invariant; the leaf joins the list right after its left neighbour |
| `LeafLinks.PublishStep` | masstree/btree_leaflink.hh:61-69 | Publishing the new leaf in the left neighbour keeps the invariant and releases the edge |
| `LeafLinks.SwapStep` | masstree/btree_leaflink.hh:81-96 | Marking the predecessor's pointer by CAS keeps the invariant, whatever prev was read |
| `LeafLinks.RemoveStep` | masstree/btree_leaflink.hh:81-96 | Redirecting the successor's prev keeps the invariant; the leaf leaves the list |
| `LeafLinks.BypassStep` | masstree/btree_leaflink.hh:81-96 | Writing the predecessor's next keeps the invariant and releases both edges |
| `LeafLinks.LeafList.constructor` | masstree/btree_leaflink.hh:101-121 | The list with the head alone |
| `LeafLinks.LeafList.LinkSplit` | masstree/btree_leaflink.hh:106-112 | The single-threaded version inserts right after its leaf, next and prev staying inverse |
| `LeafLinks.LeafList.Unlink` | masstree/btree_leaflink.hh:117-121 | The single-threaded version removes exactly that leaf, next and prev staying inverse |
| `PackedPermutations.InsertAt` | masstree/kpermuter.hh:128-137 | On the packed word: slots below keep their place, the value lands at the position, the rest shifts up, the size grows by one |
| `PackedPermutations.SelectAt` | masstree/kpermuter.hh:143-155 | The selecting insert moves slot si to di and shifts those between |
| `PackedPermutations.SelectBehind` | masstree/kpermuter.hh:143-155 | With si below di the selecting insert moves nothing: slot di gets the bits of both slots, every other slot keeps its element, and the size grows |
| `PackedPermutations.RemoveAt` | masstree/kpermuter.hh:173-188 | Removal shifts the used slots down and parks the removed one right behind them |
| `PackedPermutations.BackAt` | masstree/kpermuter.hh:206-216 | Removal to the back shifts all later slots down and parks the removed one last |
| `PackedPermutations.RotateAt` | masstree/kpermuter.hh:232-239 | The three masked shifts rotate the slots from i to the width by j - i |
| `PackedPermutations.ExchangeAt` | masstree/kpermuter.hh:241-244 | The xor trick swaps two slots and nothing else |
| `PackedPermutations.ExchangeValues` | masstree/kpermuter.hh:246-253 | The loop computes the specified exchange of two values |
| `PackedPermutations.ExchangeValuesAt` | masstree/kpermuter.hh:246-253 | That exchange replaces each of the two values by the other wherever it stands and keeps the size |
| `PackedPermutations.EmptyAt` | masstree/kpermuter.hh:72-75 | The constant holds the slots in descending order with size zero, for each width |
| `PackedPermutations.SortedAt` | masstree/kpermuter.hh:81-86 | The first n slots ascend, the others descend, and the size is n |
| `PermutedNodes.InsertFromBackSeq` | masstree/kpermuter.hh:128-137 | Refines "move the last slot to position i" on sequences |
| `PermutedNodes.InsertSelectedSeq` | masstree/kpermuter.hh:143-155 | Refines "move slot si to position di" on sequences |
| `PermutedNodes.RemoveSeq` | masstree/kpermuter.hh:173-188 | Refines "move slot i behind the used ones" on sequences |
| `PermutedNodes.RemoveToBackSeq` | masstree/kpermuter.hh:206-216 | Refines "move slot i to the very end" on sequences |
| `PermutedNodes.RotateWordSeq` | masstree/kpermuter.hh:232-239 | Refines the rotation of a sequence suffix |
| `PermutedNodes.ExchangeSeq` | masstree/kpermuter.hh:241-244 | Refines swapping two elements of a sequence |
| `PermutedNodes.EmptySeq` | masstree/kpermuter.hh:72-75 | The empty permuter as a sequence |
| `PermutedNodes.SortedSeq` | masstree/kpermuter.hh:81-86 | The sorted permuter as a sequence |
| `PermutedNodes.MakeSortedValid` | masstree/kpermuter.hh:72-86 | Both initial words hold a permutation of 0 to width - 1 |
| `PermutedNodes.ApplyValid` | masstree/kpermuter.hh:128-253 | Each of the seven operations, called as documented, keeps the slots a permutation if and only if it is no selecting insert that overlays a slot with new bits and no exchange of an element for a value that is none |
| `PermutedNodes.RunValid` | masstree/kpermuter.hh:72-253 | A sequence of operations from an initial word keeps a permutation throughout if and only if that holds of each operation |
| `PermutedNodes.ExchangeValuesValid` | masstree/kpermuter.hh:246-253 | Exchanging two four-bit values keeps the permutation if and only if both are elements or neither is |
| `PermutedNodes.RotateIsModular` | masstree/kpermuter.hh:232-239 | The rotation is arithmetic modulo width - i, for every word |
| `PermutedNodes.RotateComment` | masstree/kpermuter.hh:218-239 | The rotation documented for the used entries is what the code does if and only if i == j or the node is full |
| `PermutedNodes.InsertSelectedExactly` | masstree/kpermuter.hh:143-155 | The documented move happens if and only if di <= si |
| `PermutedNodes.InsertBehindValid` | masstree/kpermuter.hh:143-155 | With si below di the permutation survives if and only if the element at di already has the bits of the one at si |
| `PermutedNodes.InsertSelectedBreaks` | masstree/kpermuter.hh:138-155 | On the empty permuter of width 15 inserting position 0 at position 1 is allowed by the comment and leaves no permutation |
| `PermutedNodes.RotateBreaks` | masstree/kpermuter.hh:217-239 | On the sorted permuter of width 15 with two elements in use, rotating by one does not do what the comment says |
| `NarrowPermutations.LowApply` | masstree/kpermuter.hh:36-45 | For widths up to 7, every operation on the 32-bit word is the low half of the operation on 64 bits |
| `NarrowPermutations.HalfApplyValid` | masstree/kpermuter.hh:128-253 | For widths up to 7 in 32 bits, an operation keeps the permutation under the same exact condition |
| `NarrowPermutations.HalfRunValid` | masstree/kpermuter.hh:72-253 | So does every sequence of operations from an initial 32-bit word |
| `NarrowPermutations.HalfSortedValid` | masstree/kpermuter.hh:36-86 | The initial words built from the 16-bit and the 32-bit constants hold permutations of the right size |
| `NarrowPermutations.HalfElement` | masstree/kpermuter.hh:94-96 | Reading an element from the 32-bit word gives the element of the widened word |
| `KeySearch.KeyUpperBound` | masstree/ksearch.hh:29-51 | Binary search through the permutation returns the upper bound among the keys in order |
| `KeySearch.KeyLowerBound` | masstree/ksearch.hh:54-103 | Binary search returns the lower bound and the slot of the key exactly when it is present |
| `KeySearch.KeyFindUpperBound` | masstree/ksearch.hh:107-120 | The linear search meets the same specification |
| `KeySearch.KeyFindLowerBound` | masstree/ksearch.hh:123-156 | The linear search meets the same specification, position included |
| `KeySearch.BoundsUnique` | masstree/ksearch.hh:29-156 | Each specification has one answer, so binary and linear searches agree; the upper bound is the lower bound plus one exactly if the key is present |
| `KeySearch.InsertKeySorted` | masstree/kpermuter.hh:128-137 | Inserting an absent key at its lower bound keeps the node sorted and inserts exactly it into the key list |
| `KeySearch.RemoveKeySorted` | masstree/kpermuter.hh:173-188 | Removing a position keeps the node sorted and drops exactly that key |
| `KeySearch.Apply1` | masstree/ksearch.hh:54-103 | Search followed by insert or remove changes the node as the same change on a set |
| `KeySearch.RunChanges` | masstree/ksearch.hh:54-103 | So does every sequence of inserts and removes, the node staying sorted throughout |
| `JsonText.RoundTrip` | masstree/json.cc:601-684 | For every tree without doubles, with distinct keys, 64-bit integers and depth at most 2048, and for every indentation setting: parsing the unparsed text gives the same tree |
| `JsonText.ReadValue` | masstree/json.cc:704-891 | From every parser state that waits for a value, the text of a tree is read as that tree, whatever ends it, if none of its containers begins where the stack is full |
| `JsonText.ReadItems` | masstree/json.cc:601-667 | From the middle of an array, the rest of its text completes it |
| `JsonText.ReadMembers` | masstree/json.cc:601-667 | From the middle of an object, the rest of its text completes it |
| `JsonText.ReadPrimitive` | masstree/json.cc:1071-1097 | The text of a scalar is read back as that scalar |
| `JsonText.ReadDecimal` | masstree/json.cc:1100-1220 | The number scanner reads the decimal text of every number below 2^64 as that number |
| `JsonText.ReadNegative` | masstree/json.cc:1100-1220 | It reads the text of every negative number down to -2^63 as that number |
| `JsonText.AccumulateDecimal` | masstree/json.cc:1100-1220 | The wrapping 64-bit accumulator inverts decimal printing |
| `JsonText.StreamingParser.constructor` | masstree/json.hh:2762-2837 | A parser in its initial state |
| `JsonText.StreamingParser.Consume` | masstree/json.cc:704-891 | The stateful loop computes the specification `Run`, for every state and text, including errors; `JsonGrammar.ValueFound` and `ValueReads` say which texts that completes on and with which tree |
| `JsonText.StreamingParser.Character` | masstree/json.cc:722-853 | One round of the loop is one step of the specification |
| `JsonText.StreamingParser.Token` | masstree/json.cc:722-853 | Strings, primitives and unexpected characters are handled as one step of the specification |
| `JsonText.StreamingParser.Value` | masstree/json.cc:854-878 | Delivers a finished value to the enclosing array, object or result |
| `JsonText.StreamingParser.CloseValue` | masstree/json.cc:879-891 | Closes the innermost container into its parent |
| `JsonText.StreamingParser.SkipSpaces` | masstree/json.cc:722-733 | Skipping white space does not change the outcome |
| `JsonText.SurroundedText` | masstree/json.cc:671-684 | With white space around it, the text of such a tree is accepted, as that tree, if and only if at most one white space character follows it |
| `JsonGrammar.AssignParse` | masstree/json.cc:671-684 | For every text and every way to scan strings: returns a tree if and only if the text is in the language of the grammar, and then the grammar's tree for it |
| `JsonGrammar.ParseExactly` | masstree/json.cc:671-891 | The specification of the parser accepts a text with a tree if and only if the grammar relates them: white space, a value, and at most one white space character behind it |
| `JsonGrammar.Unambiguous` | masstree/json.cc:671-684 | The grammar gives no text two trees |
| `JsonGrammar.ValueReads` | masstree/json.cc:704-891 | From every parser state that waits for a value, a text that the grammar derives a value from is read as that value, if a delimiter, white space or the end follows |
| `JsonGrammar.ValueFound` | masstree/json.cc:704-891 | Conversely, whenever the parser completes on a text, the text begins with a value of the grammar and the parser goes on behind it with that value |
| `JsonGrammar.MoreItemsRead` | masstree/json.cc:735-743 | Behind an item: commas each followed by an item, then the closing bracket, complete the array with exactly these items |
| `JsonGrammar.MoreItemsFound` | masstree/json.cc:735-743 | Nothing else completes an array; in particular no comma stands before the closing bracket |
| `JsonGrammar.MoreMembersRead` | masstree/json.cc:735-818 | Behind a member: commas each followed by a key, a colon and a value, then the closing brace, complete the object |
| `JsonGrammar.MoreMembersFound` | masstree/json.cc:735-818 | Nothing else completes an object |
| `JsonGrammar.MergedMore` | masstree/json.cc:804-812 | Setting members one after another gives one member for each key, in the order keys first occur in, with the value given last |
| `JsonGrammar.RoundTripExactly` | masstree/json.cc:750-790 | For trees that can be printed exactly: parsing the unparsed text gives the tree back if and only if no container begins where the pointer stack has exactly the size 2048 |
| `JsonGrammar.ValueOpens` | masstree/json.cc:750-790 | Whatever the grammar derives meets that condition |
| `JsonGrammar.ArraysNest` | masstree/json.cc:771-787 | Arrays inside each other meet it if and only if there are at most 2049 of them |
| `JsonGrammar.MixedNest` | masstree/json.cc:750-790 | With an object inside 2048 arrays, any number of further arrays meets it |
| `JsonNumerals.NumeralRead` | masstree/json.cc:1100-1200 | Every numeral (sign, whole part without leading zero, fraction, exponent) followed by the end of a token is read whole and with its meaning: an integer modulo 2^64, signed after a sign, or a double |
| `JsonNumerals.NumeralFound` | masstree/json.cc:1100-1200 | Whatever the scanner reads is a numeral, with that meaning |
| `JsonNumerals.AccumulateValue` | masstree/json.cc:1186-1193 | The wrapping accumulator holds the decimal value modulo 2^64 |
| `JsonObjects.ObjectJson.constructor` | masstree/json.hh:440-449 | The empty object, without a bucket array |
| `JsonObjects.ObjectJson.Find` | masstree/json.hh:458-470 | Returns a live slot of the key, whose value is what the association list has for it, or -1 exactly if the list has nothing; it terminates because chains ascend |
| `JsonObjects.ObjectJson.Walk` | masstree/json.cc:138-161 | The chain walk ends at the key's slot with its predecessor, or at the end of the chain |
| `JsonObjects.ObjectJson.Rehash` | masstree/json.cc:125-136 | Doubles the bucket array, re-threads every live slot on its new bucket's chain in ascending order, and keeps the contents |
| `JsonObjects.ObjectJson.FindInsert` | masstree/json.cc:138-161 | Does to the association list what `Put` does: a new key goes to the end, an old one keeps its place and value; returns the slot of the key, and from now on there is a bucket array |
| `JsonObjects.ObjectJson.EraseKey` | masstree/json.cc:200-213 | Out of bounds, with nothing changed, if and only if there is no bucket array; otherwise answers how many pairs had the key and drops them from the association list |
| `JsonObjects.ObjectJson.Erase` | masstree/json.cc:188-198 | Drops exactly the key of that slot from the association list; the bucket array stays |
| `JsonObjects.ObjectJson.Unlink` | masstree/json.cc:188-213 | Taking one slot off its chain drops its key from the association list and keeps every other slot on exactly its own chain and the size exact |
| `JsonObjects.RunOperations` | masstree/json.cc:98-213 | Every sequence of insertions, erasures, lookups, grows and rehashes on a new object gives the answers and the contents of the association list, and stays in bounds if and only if no key is erased by name before the first insertion |
| `JsonObjects.Apply` | masstree/json.cc:98-213 | One operation on any valid object answers and does what it does on the association list, and is out of bounds exactly for an erasure by name without a bucket array |
| `JsonObjects.BucketInside` | masstree/json.hh:452-454 | For a bucket count of zero or a power of two, the masked index lies in the bucket array if and only if there is one, and is then the remainder of the hash code |
| `JsonObjects.MaskIsRemainder` | masstree/json.hh:452-454 | The bit mask of a power of two less one is the remainder |
| `JsonObjects.EraseFromNew` | masstree/json.cc:200-213 | On an object as its constructor makes it, erasing any key by name is out of bounds |
| `JsonObjects.ObjectJson.Append` | masstree/json.cc:147-156 | Hanging a slot for a new key on the end of its chain appends one pair to the association list |
| `JsonObjects.LookupAbsent` | masstree/json.hh:458-470 | The association list has nothing for a key exactly if no live slot has the key |
| `JsonObjects.LookupLive` | masstree/json.hh:458-470 | A live slot holds what the association list has for its key, and no earlier entry does |
| `JsonObjects.AppendedIndexed` | masstree/json.cc:138-161 | Hanging a new slot on the end of its bucket's chain keeps the whole index right and appends to the association list |
| `JsonObjects.ErasedIndexed` | masstree/json.cc:188-213 | Bypassing a slot keeps the whole index right and drops one pair |
| `JsonObjects.FrontedOk` | masstree/json.cc:125-136 | Pushing slots on chain fronts from the last slot down keeps the chains ascending |

## Left out

- Inner-level removal and merge racing with parent splits, and growth of the root: the concurrent tree model stays at the leaf level and the abort node.
- Backward iteration, and iteration without a start key (that iterator does not skip an empty first leaf).
- Branches that are not compiled: multi-value keys, the old epoch scheme, fake atomics.
- Memory layout, destructors, statistics, padding, and hardware fences; nodes are values and memory is a set of intervals relative to a chunk.
- NavigateInnerNode: does not model the prefetch, nor the abort node it steps through, which has no effect on the answer.
- FindLeftSibling: does not model installing the node it consolidates when it meets a merge; the answer does not depend on whether that CAS wins.
- NavigateSiblingChain: over a tree that stands still the removals it completes are its own; in a run the compare-and-swap of another thread may come first, and the code then starts over, which is a new walk.
- Descend: starts at the inner node just above the leaves; the levels above it are a function of the key.
- ExchangeValues: the arguments are four-bit values, as all elements are.
- RunChanges: an insert into a full node, or of a key already present, and a removal of an absent key leave the node alone, since the searches say so and the callers do not act.
- RequestServed: asks that the request fit in a new chunk, as the sizes of the records do; a larger one makes the code build chunks without end. No claim is made under interference, where other threads can take every new chunk first.
- PopAlone: a popper that others keep overtaking may retry for ever; so it is in the code.
- RoundTrip: merges the signed and the unsigned integer tag into one number; doubles are kept as text and are not part of the law, and string escapes are the assumed codec. The same holds of the grammar.
- Consume: reads one complete text; resuming in the middle of a string across chunks is not modelled. The parser's pointers into the tree are modelled by the stack of open containers.
- Grow: models the capacity only; copying slots to new memory has no effect on values.
- FindInsert: reference counting and the lookup-and-create variant with a null value are this operation with that value and are not modelled apart.
- AddGarbageNode: the list method appends only; the collection that follows once the list is long enough is a separate step of the epoch state machine and the method `PerformGC`.
- IncreaseEpoch: is bounded below the value reserved for inactive threads.
- The command line, file and checkpoint code, benchmark drivers, thread-local storage, statistics, random numbers and small utilities would only add easy members.
