# The persistent decision tree and its crash-consistent vectors, in Dafny

The library keeps a decision tree in persistent memory. An insertion is a chain of (key, value)
pairs and a data blob; it walks down the known tree, builds the rest of the branch off to the
side, and publishes it with one push onto the vector of the last known node. A query is a partial
dictionary: it filters children at the nodes whose key it names and follows all of them elsewhere.
There are no transactions: everything rests on the order of single stores, persists and atomic
allocations. This project models that code step by step and proves what a power cut, between any
two steps of any call, can leave behind, and that the tree is an index that agrees with the plain
list of what was inserted.

`dafny verify dfyconfig.toml` checks all of it.

## How the model is built

**Memory.** `Pmem.Pool` is an open pool. Its field `heap` maps object ids to blocks, and every
mutable word of a block is a `Cell`: the value a load returns, and the set of values that can be
found after a power cut. A store adds its value to that set; a completed persist leaves only the
latest. Module `WriteBack` has the cache and the medium themselves, with write-backs at arbitrary
moments, and proves the sets exact in both directions; `PoolWords` shows that the words of a pool
are such words, its stores and persists such events, and every heap one that they can make. Each
method of `Pool` is one indivisible step; `trace` records the state after each, and nothing outside
the class assigns its fields. `CrashImage(h, h')` says that h' can be found when the power fails in h. Persistent objects live in `heap` and not in Dafny objects of their own because a
power cut has to be able to put older contents back; the C++ `this` becomes the id `self`, `owner`
or `root`.

**Steps.** `Pmem.Executed` says that a trace grows by exactly one of the steps of `Pool` at a time and
ends in the present, so that no state passed through is left out; every contract that speaks of such
states has it. `refusals` counts refused allocations: a call ends in AllocationFailed exactly when it
has met one.

**Calls.** `PersistentVector`, `PersistentPODVector`, `TreeNode`, `TreeRoot` and `TreeObject` have
the methods of the source with its loops and its order of steps. Their contracts speak of three
things at once: the result, the whole new state, and every state passed through. `VecStep`,
`PodStep`, `TreeStep`, `RootStep` and `MapStep` say what a power cut in such a state recovers.

**Values.** `TreeSpec` is the tree as a value: `Insert`, `Lookup`, and the flat list `Entries`.
`TreeHeap.Repr` says when a heap holds such a tree: every id names a live block of its own type,
nothing is in flight, leaves have data and no children and interior nodes the reverse, and no block
is used twice. `TreeFacts` and `TreeMap` prove the properties of the values, and the methods are
proved against them.

**Types.** `get()` asserts that the block's recorded type is the pointer's. In the model that
assertion is the precondition of `PersistentPtr.Get`, so each use carries the proof that it holds.

**Main results.**

- A power cut at any step of an insertion recovers the old tree or the new one
  (`TreeNode.AddNode`, `TreeBlocks.InsertionIsCrashAtomic`), and over any sequence of calls and
  power cuts nothing stored under a durable root pointer is lost and nothing else appears
  (`Sessions.Session`, `Sessions.DurableForGood`, `Sessions.RunKeepsEntries`). Answers to a query only
  grow (`Sessions.AnswersOnlyGrow`).
- A query is a filter over the list of entries, and names no leaf twice
  (`TreeFacts.LookupIsFilter`, `TreeNode.Lookup`).
- Insertions leak nothing: a tree has two blocks for each node, and the others are untouched
  (`TreeRoot.AddNode`, `Sessions.Uninterrupted`).
- An insertion is accepted exactly when its path branches off from every stored path
  (`TreeFacts.AcceptedIff`).
- Over a schema the tree is a finite map from dictionaries to blobs (`TreeObject.TreeObject.AddNode`,
  `TreeObject.TreeObject.Lookup`).
- Both vectors hold, after any run with power cuts, the completed pushes in order and of each
  interrupted one all or nothing (`VectorSessions.PerformAll`, `PodSessions.PerformAll`,
  `Runs.RunKeepsCompleted`); and growth is by least doublings
  (`Runs.GrowthIsAmortised`).

**Where the code and its documentation part.** The model follows the code, and states exactly when
the documented property holds.

- README.md:82-85 says a pointer is persisted as the last act of construction. The constructor
  callback persists an object's contents only when the build has failed
  (src/pmem/PersistentPtr.cc:48-50). `VectorFacts.BuiltSurvivesIff` says exactly what that means,
  for any memory the block is built in: after a success the block survives only if the memory
  already held what was written. In zeroed memory that excludes every copy that a growing vector
  makes of its elements (`VectorFacts.CopyIsNotPersisted`). Everything else takes "contents are
  durable before publication" as an assumption, named `PersistentPtr.ConstructionDurable`.
- The root pointer of the tree is assigned without a persist (src/pmem/tree/TreeRoot.cc:85-87), so
  after the first insertion a power cut can still find an empty pool. `TreeRoot.DurableIff` gives
  the exact condition, before the call and with the failing image. The contracts allow for the
  empty pool; in `Sessions` a run may start from it, and `DurableForGood` says when the risk ends.
- A slot of a vector is two words, assigned plainly (src/pmem/PersistentVector.h:268), and counts as
  null by its offset alone. The store is all or nothing if and only if the slot's pool word already
  held the id's own (`VectorFacts.SlotStoreIsWholeIff`), and a null slot, both words zero, never does
  (`VectorFacts.NullSlotCanTear`). The model takes the slot as one word: an assumption on the
  processor that the code does nothing to meet.
- A schema with a repeated key refuses every dictionary of exactly its keys and accepts some others
  (`TreeSchema.AcceptsItsKeysIff`, `TreeSchema.RepeatedKeyAcceptsStranger`).

## Model

| member | source | states |
|---|---|---|
| `WriteBack.ScheduleStaysAllowed` | README.md:78-92 | whatever lines are written back and when, the medium holds a value from each word's set, and the cache the latest |
| `WriteBack.AllowedHasSchedule` | README.md:78-92 | every choice from the sets is left by some schedule of write-backs |
| `WriteBack.MaySetsAreExact` | README.md:78-92 | the two together: the sets are exactly what a power cut can leave |
| `PoolWords.ImageIffAllowed` | README.md:78-92 | what a power cut can leave of a pool is exactly: the same blocks, and in every word and element a value its set allows |
| `PoolWords.PtrSteps` | src/pmem/PersistentPtr.cc:85-88 | a pointer store or persist of the pool is one store or persist of the device with the cache |
| `PoolWords.CountSteps` | src/pmem/PersistentVector.h:307-313 | the same for the counter of a vector |
| `PoolWords.ElemSteps` | src/pmem/PersistentPODVector.h:213-214 | storing an element is a store of each mixture it passes through and then of the value; persisting it is one persist |
| `PoolWords.StepIsEvent` | README.md:78-85 | each step that a trace may record is one event of the device, or adds or takes away one block, and nothing else |
| `PoolWords.EveryHeapIsBehindACache` | README.md:78-92 | every heap, whatever allocations and releases led to it, is made by stores and persists through a cache, and its power cuts are exactly the schedules of write-backs |
| `Pmem.Pool.StorePtr` | src/pmem/PersistentPtr.cc:85-88 | plain assignment: both the old and the new id may be found |
| `Pmem.Pool.PersistPtr` | src/pmem/PersistentPtr.cc:85-88 | after the persist only the latest id can be found |
| `Pmem.Pool.StoreElem` | src/pmem/PersistentPODVector.h:213 | assignment of a whole element: old, new or any torn mixture may be found |
| `Pmem.Pool.AllocInto` | src/pmem/PersistentPtr.h:263-280 | allocation publishes the id and the block in one durable step; or it is refused, which changes nothing and is counted |
| `Pmem.Pool.Free` | src/pmem/PersistentPtr.h:352 | the release inside a replace, through the copy of the id on the stack: the block is given back in one step |
| `PersistentPtr.AllocateCtr` | src/pmem/PersistentPtr.h:263-280 | on a null pointer: one step to the published object, or unchanged |
| `PersistentPtr.AllocateOnStack` | src/pmem/PersistentPool.h:126-133 | allocation to a pointer on the stack: the object is live but nothing persistent refers to it |
| `PersistentPtr.ReplaceCtr` | src/pmem/PersistentPtr.h:337-354 | two steps, publication then release of the old block exactly once; on failure nothing changes |
| `PersistentPtr.SetPersist` | src/pmem/PersistentPtr.cc:85-88 | store then persist; afterwards the pointer is durable |
| `VectorSpec.VecStepImage` | src/pmem/PersistentVector.h:319-352 | a power cut in any state of any vector operation recovers the vector before it or with the element in flight appended |
| `VectorSpec.BackedImage` | src/pmem/PersistentVector.h:250-256 | if a power cut finds the element of an interrupted push in the vector, it finds the object the element names |
| `VectorSpec.ReplaceLeaksAtMostOne` | src/pmem/PersistentVector.h:404-417 | in every state of a resize the vector names a live block, and at most one block is unaccounted for |
| `PersistentVector.CheckRepairsAnyLag` | src/pmem/PersistentVector.h:284-304 | over any non-null prefix with the counter not beyond it: the assertion holds, the counter becomes the length, no slot changes, a second check does nothing |
| `PersistentVector.CheckFailsBeyondPrefix` | src/pmem/PersistentVector.h:289-290 | over a non-null prefix the assertion holds exactly when the counter is not beyond it |
| `PersistentVector.UpdateNelem` | src/pmem/PersistentVector.h:307-313 | store then persist of the counter |
| `PersistentVector.ConsistencyCheck` | src/pmem/PersistentVector.h:284-304 | the scanning loop: fails exactly when its assertion does, else moves the counter to the first null slot, writing only if it was behind |
| `PersistentVector.NewData` | src/pmem/PersistentVector.h:174-183 | the sizing constructor's loop: count zero and every slot null |
| `PersistentVector.CopyData` | src/pmem/PersistentVector.h:186-201 | the copying constructor's loops: the same elements in the same order, then nulls, with the number of copies; the source only has its counter repaired |
| `PersistentVector.DataSize` | src/pmem/PersistentVector.h:210-218 | the true number of elements, after a repair that every power cut survives |
| `PersistentVector.DataFull` | src/pmem/PersistentVector.h:228-236 | true exactly when the elements fill the block |
| `PersistentVector.DataPushBackElem` | src/pmem/PersistentVector.h:259-274 | refuses exactly a full block; else appends, every state passed through being recoverable |
| `PersistentVector.DataPushBack` | src/pmem/PersistentVector.h:239-256 | the same for an element allocated into its slot; a failed allocation leaves only a repaired counter |
| `PersistentVector.Size` | src/pmem/PersistentVector.h:386-389 | zero for a null vector, else the repaired count |
| `PersistentVector.At` | src/pmem/PersistentVector.h:398-401 | element i, without any check of the counter, is the i-th element even while the counter lags |
| `PersistentVector.Resize` | src/pmem/PersistentVector.h:404-417 | same elements in a new block of the asked size, nothing else touched, the old block gone; on failure nothing but the counter changes |
| `PersistentVector.PushBackElem` | src/pmem/PersistentVector.h:336-352 | appends the element; a null vector gets one slot, a full block is copied to twice its slots, any other is kept and nothing can fail; no leak; it fails exactly when an allocation is refused, and then contents are the same and no state passed through held the element |
| `PersistentVector.PushBackCtr` | src/pmem/PersistentVector.h:319-333 | the same for a newly constructed element: no other block is touched, and in no state passed through is the element named without being live and whole |
| `Runs.RunKeepsCompleted` | src/pmem/PersistentVector.h:336-352 | over any run with power cuts: all completed appends in order, and of interrupted ones a selection |
| `Runs.GrowthIsAmortised` | src/pmem/PersistentVector.h:345-349 | over any pushes onto any vector: from c slots the capacity becomes the least c * 2^j that fits, with as many elements copied as slots gained, fewer than twice the elements |
| `VectorFacts.SizeIsExact` | src/pmem/PersistentVector.h:204-207 | in 64-bit arithmetic the computed size is the needed one exactly up to 2^60 - 2 slots |
| `VectorFacts.SlotsAreInside` | src/pmem/PersistentVector.h:175-207 | up to there every slot lies inside the block |
| `VectorFacts.PublishedSurvivesIff` | src/pmem/PersistentPtr.cc:39-52 | a published block survives every power cut exactly when its slots are settled and its counter is at most one behind |
| `VectorFacts.LaidIsTheBlock` | src/pmem/PersistentVector.h:174-201 | a constructor's stores over any memory make the block that the two constructors are proved to build |
| `VectorFacts.BuiltSurvivesIff` | src/pmem/PersistentPtr.cc:48-51 | for any memory, any elements and any return value: the published block survives every power cut if and only if the build had failed or the memory already held what was written |
| `VectorFacts.CopyIsNotPersisted` | src/pmem/PersistentPtr.cc:48-51 | in zeroed memory, after success the block has landed only if nothing was copied; after failure always |
| `VectorFacts.SlotStoreIsWholeIff` | src/pmem/PersistentVector.h:268-269 | over a null slot, storing a two-word id is all or nothing under every power cut if and only if the slot's pool word already held the id's own |
| `VectorFacts.NullSlotCanTear` | src/pmem/PersistentVector.h:179-182 | a slot as the constructors leave it does not: for every id some power cut finds it not null and naming another pool |
| `PersistentPODVector.PodStepImage` | src/pmem/PersistentPODVector.h:231-250 | the same for every state of push and resize, with no repair scan |
| `PersistentPODVector.CopyPod` | src/pmem/PersistentPODVector.h:155-166 | the copying loop: the same values in the same order, the rest arbitrary |
| `PersistentPODVector.DataPushBack` | src/pmem/PersistentPODVector.h:202-218 | refuses exactly a full block; else the trace is exactly element stored, persisted, counter stored, persisted |
| `PersistentPODVector.Resize` | src/pmem/PersistentPODVector.h:270-283 | same values in a new block of the asked size, nothing else touched, the old block gone; or nothing changes |
| `PersistentPODVector.PushBack` | src/pmem/PersistentPODVector.h:231-250 | appends the value by those four steps, with the same three cases of growth and no leak; every state passed through recovers the old values or all of the new; it fails exactly when an allocation is refused |
| `VectorSessions.Perform` | src/pmem/PersistentVector.h:319-417 | any one call, of either push or a growing resize, seen as an append or as nothing |
| `VectorSessions.PerformAll` | src/pmem/PersistentVector.h:319-417 | for every sequence of both pushes and growing resizes and every power supply: each call is made and cut exactly as the supply says, by recorded steps; the vector reopens valid, its contents form a run, each object made for it and found in it is live and whole, and as many calls fail as allocations are refused |
| `VectorSessions.RunGrows` | src/pmem/PersistentVector.h:319-352 | any run of completed pushes grows the real blocks as `Runs.GrowthIsAmortised` says |
| `PodSessions.PerformAll` | src/pmem/PersistentPODVector.h:231-283 | the same runs for plain data, with arbitrary tearing of every store |
| `PodSessions.RunGrows` | src/pmem/PersistentPODVector.h:231-250 | the same growth for plain data |
| `TreeFacts.ChainHasOneEntry` | src/pmem/tree/TreeNode.cc:74-99 | a fresh branch holds exactly the one entry, under the given top value, for every chain length including zero |
| `TreeFacts.InsertAddsOneEntry` | src/pmem/tree/TreeNode.cc:105-137 | an accepted insertion adds exactly one entry to the list, keeps all others in order with their ids and data, and keeps sibling values distinct |
| `TreeFacts.AcceptedIff` | src/pmem/tree/TreeNode.cc:105-137 | accepted if and only if the path is not empty and, against every stored path, the first difference lies inside both with the same key and another value |
| `TreeFacts.LeafExistsIff` | src/pmem/tree/TreeNode.cc:121-122 | LeafExistsError if and only if a stored path is a prefix of the new one; every other refusal is an assertion |
| `TreeFacts.StoredPathsBranch` | src/pmem/tree/TreeNode.cc:105-137 | any two stored paths branch from one another |
| `TreeFacts.BranchingIsNotPrefix` | src/pmem/tree/TreeNode.cc:105-137 | so none is a prefix of another and no two are equal |
| `TreeFacts.LookupIsFilter` | src/pmem/tree/TreeNode.cc:175-221 | a query returns the leaves whose path agrees with the request on every key it names, and no others, in depth-first order |
| `TreeFacts.LookupOnlyGrows` | src/pmem/tree/TreeNode.cc:175-221 | after an insertion the same query returns what it returned before, in order, with at most the new leaf put in |
| `TreeBlocks.EntryIdsDiffer` | src/pmem/tree/TreeNode.cc:105-137 | in a heap, no two entries of a tree are on the same leaf |
| `TreeBlocks.LookupOnce` | src/pmem/tree/TreeNode.cc:175-221 | so a query names no leaf twice |
| `TreeHeap.ReprIsFixed` | src/pmem/tree/TreeNode.cc:42-57 | every block of a tree at rest is live with nothing in flight |
| `TreeHeap.ReprFrame` | src/pmem/tree/TreeNode.cc:105-137 | a tree depends on its own blocks only |
| `TreeHeap.KidStep` | src/pmem/tree/TreeNode.cc:123 | a crash-safe step of the recursive call is a crash-safe step of the whole tree |
| `TreeHeap.VectorReadStep` | src/pmem/tree/TreeNode.cc:117 | repairing a counter or moving a slot array leaves the tree as it is, at every step |
| `TreeHeap.VectorPushStep` | src/pmem/tree/TreeNode.cc:136 | in every state of the publishing push a power cut recovers the tree without the branch or with all of it |
| `TreeNode.AllocateLeaf` | src/pmem/tree/TreeNode.cc:60-69 | a leaf and its buffer on new blocks, nothing else touched |
| `TreeNode.AllocateNested` | src/pmem/tree/TreeNode.cc:74-99 | the downward loop with its shift of values builds exactly the recursive branch, on new blocks only, touching nothing that was there in any state |
| `TreeNode.FindItem` | src/pmem/tree/TreeNode.cc:116-126 | the scanning loop finds the first child with the value, repairing at most the counter |
| `TreeNode.AddBranch` | src/pmem/tree/TreeNode.cc:130-136 | at the bottom of the known tree: build aside, publish with one push; it fails exactly when an allocation is refused, and leaves the tree as it was |
| `TreeNode.AddNode` | src/pmem/tree/TreeNode.cc:105-137 | refines `Insert` with the same outcome unless an allocation is refused; every state passed through recovers the old or the new tree; an accepted call exchanges old blocks for new without a leak, a refused one allocates and frees nothing |
| `TreeNode.Lookup` | src/pmem/tree/TreeNode.cc:175-221 | refines the query on the value, no leaf twice, refuses exactly a leaf, and does nothing to the tree but repair counters, crash-safely |
| `TreeBlocks.InsertionIsCrashAtomic` | src/pmem/tree/TreeNode.cc:105-137 | after a power cut at any step the entries are the old ones, or those and the complete new one |
| `TreeBlocks.TwoBlocksPerNode` | src/pmem/tree/TreeNode.cc:60-99 | a tree owns exactly two live blocks per node |
| `TreeSchema.Schema.constructor` | src/pmem/tree/TreeSchema.cc:68-72 | the keys in the order of the list |
| `TreeSchema.Schema.ProcessInsertKey` | src/pmem/tree/TreeSchema.cc:78-97 | accepts exactly the dictionaries with as many pairs as keys and every key present, and lays them out in key order |
| `TreeSchema.AcceptsItsKeysIff` | src/pmem/tree/TreeSchema.cc:82-92 | the accepted dictionaries are those over the schema's keys if and only if no key is repeated |
| `TreeSchema.RepeatedKeyAcceptsStranger` | src/pmem/tree/TreeSchema.cc:82-92 | with a repeated key, a dictionary with a foreign key is accepted |
| `TreeMap.InsertByKeys` | src/pmem/tree/TreeRoot.cc:114-117 | insertions keep every leaf at the depth of the schema |
| `TreeMap.DictRoundTrip` | src/pmem/tree/TreeSchema.cc:86-93 | laying a dictionary out as a path and reading it back gives the dictionary |
| `TreeMap.RefusedIffPresent` | src/pmem/tree/TreeRoot.cc:114-117 | over a schema, refused exactly when the dictionary is already stored, always with LeafExistsError |
| `TreeMap.InsertIsMapUpdate` | src/pmem/tree/TreeRoot.cc:114-117 | over a schema, an accepted insertion is a map update |
| `TreeMap.ChainIsSingletonMap` | src/pmem/tree/TreeRoot.cc:83-87 | the first insertion makes a map of one |
| `TreeMap.AgreesIffDict` | src/pmem/tree/TreeNode.cc:178-184 | a stored path agrees with a request exactly when its dictionary does |
| `TreeMap.FullLookup` | src/pmem/tree/TreeRoot.cc:128-134 | a query naming every key returns the one leaf of that dictionary, or nothing |
| `TreeRoot.PublishedImage` | src/pmem/tree/TreeRoot.cc:85-87 | after the first insertion a power cut finds no tree or all of it |
| `TreeRoot.AddNode` | src/pmem/tree/TreeRoot.cc:74-93 | both cases of an insertion, with the outcome of `Insert` and every state passed through recoverable; no other block touched, none leaked, none allocated by a refused call; durable at its end exactly if a tree was held under a durable pointer |
| `TreeRoot.TreeSurvivesIff` | src/pmem/tree/TreeRoot.cc:85-87 | what is stored survives every power cut if and only if the root pointer has become durable |
| `TreeRoot.DurableIff` | src/pmem/tree/TreeRoot.cc:83-92 | the same as a condition before the call; and after a first insertion some power cut finds no tree |
| `TreeObject.EntryData` | src/pmem/tree/TreeNode.cc:160-167 | the leaf of an entry is a live leaf node whose buffer has the entry's bytes |
| `TreeObject.TreeObject.AddNode` | src/pmem/tree/TreeRoot.cc:114-117 | the outcome says exactly whether the dictionary has the schema's keys and is new; one entry is put in and every old one stays in order and on its leaf; a power cut finds the tree before or after; blocks are conserved; the exact condition for the map to be durable at the end |
| `TreeObject.TreeObject.Lookup` | src/pmem/tree/TreeRoot.cc:128-134 | the agreeing entries in tree order, each once; for a full dictionary the one leaf, with the stored bytes; no block allocated, freed or touched outside the tree, and a power cut at any step finds the map |
| `Sessions.DurableForGood` | src/pmem/tree/TreeRoot.cc:83-92 | from the moment the root pointer is durable, or one power cut has found the tree, it stays so and nothing can be lost |
| `Sessions.RunKeepsEntries` | src/pmem/tree/TreeRoot.cc:114-117 | while no power cut finds the root pointer null, the entries only grow: none is lost, changed, moved to another leaf or reordered, and every insertion that returned is there |
| `Sessions.AnswersOnlyGrow` | src/pmem/tree/TreeRoot.cc:128-134 | then the same query asked later answers with what it answered before, in order, and perhaps more, and every leaf it named is still an entry's |
| `Sessions.RunInventsNothing` | src/pmem/tree/TreeRoot.cc:114-117 | whatever is lost, nothing is found that no call was storing |
| `Sessions.Session` | src/pmem/tree/TreeRoot.cc:114-134 | for every sequence of insertions and queries and every power supply, from an empty pool or any other: each call is made and cut exactly as the supply says, by recorded steps; the pool reopens, what it holds and answers forms a run, and every stored entry can be read through its leaf |
| `Sessions.PlainRun` | src/pmem/tree/TreeRoot.cc:114-117 | with every call made and no allocation refused, the final map has the old pairs and, of each new dictionary over the schema, the first blob named; an insertion is Done exactly when it is that first |
| `Sessions.Uninterrupted` | src/pmem/tree/TreeRoot.cc:114-134 | so for any run of the object while the power holds; then also the blocks outside the tree are the same ones, and the tree has exactly two for each node; in any run the answers to a query only grow |

## Left out

- libpmemobj, memory mapping, pool files, logging: foreign code and I/O; its allocation, release and persist are taken as the steps of `Pmem.Pool`.
- PersistentPool, PoolRegistry, PersistentMutex: thin wrappers; one open pool and no concurrency, which README.md:90-92 leaves to the user.
- The JSON form of a schema, and reading it back when a TreeObject is opened: the parser is not part of this model; a schema is given as its list of keys.
- TreeTool, TreeMultIO, printTree and the stream operators: output only.
- FixedString<12>: names are strings of at most 12 characters; longer ones are outside the domain.
- PersistentBuffer block sizes: the size override is declared for another argument type than the one the callers pass; blobs are byte sequences, and no claim is made on their allocation size.
- PersistentString and the pointer conversions `as` and `forced_cast`: not used by the tree or the vectors.
- `AtomicConstructor` templates: a constructor is the block it leaves; exceptions other than AllocationError escaping from one are excluded by precondition.
- PersistentVector.Resize: a block is only replaced by one with more slots than it has elements, because the copying constructor asserts that inside libpmemobj. A null vector may be given no slots; what a push on such a block would do (ask for a copy with no slots, and fail that assertion) is not modelled.
- PersistentPODVector.Resize: the same.
- Slots of two words: the crash results on `push_back_elem`, and so on the tree, assume that the two words of an id reach the medium together, pool word no later than offset; with the plain store of the code every null slot can contradict it, as `VectorFacts.NullSlotCanTear` shows.
- The nulling of the pointer by `PersistentPtrBase::free`: neither the vectors nor the tree call it; they release blocks only inside a replace.
- Fields that only a constructor writes (keys, values, capacities, buffer bytes) are plain values: their durability is part of `ConstructionDurable` and not followed word by word.
- TreeNode.AddNode: after a failed allocation the part of the branch already built stays allocated and unreachable, as in the source; only the tree itself is claimed unchanged.
- Persistent objects are not Dafny classes: their fields are words of `Pmem.Pool.heap`, so that a power cut can restore older ones; aliasing is expressed by ids and ruled out by `TreeHeap.Unshared`.
