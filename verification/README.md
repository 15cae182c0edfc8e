# Flashcache: a verified model

Flashcache puts an SSD in front of a disk as a set-associative block cache, in write-back,
write-through or write-around mode, with a prefetcher into RAM beside it. This project models
its logic in Dafny and proves what its checks only spot-check at run time. `dafny verify
dfyconfig.toml` checks everything.

**The I/O protocol** (`Types`, `Protocol`, `Steps`). A state holds the slots with their state
bits, block number, `nr_queued`, waiting requests and the job or drain that owns them; the SSD,
the disk and the on-SSD records; the head of every metadata block; every unfinished request; the
counters; and a log of what has been answered. Steps are the driver's critical sections, single
device I/Os taking effect, power loss with an unclean reload, and clean removal with a reload;
they interleave in any order. `Invariant` says what every reachable state satisfies, in six
families; `Frames`, `SlotSteps`, `RequestSteps`, `ContentSteps`, `EndSteps`, `MetaSteps`,
`StepProofs`, `CrashProofs` and `Handover` prove it step by step; `Theorems` puts it together and
`Guarantees` states the results. `Batching` follows a metadata write from its kickoff to the
records it leaves. `Durability` ties them to a replay of the acknowledged writes,
`WriteOrder` says what overlapping writes can leave, `Accounting` ties the counters to true counts,
and `Progress` shows that everything under way ends. The hash of a
block is an arbitrary function, reclaim may choose any victim its rules allow.

**The driver** (`Driver`). A class whose methods are the same critical sections in place, with the
loops of the original. Its invariant is that the fields are the last state of a run of the
protocol, and each method reports the steps it has taken, so all guarantees hold of it.

**Per-set structures.** `Links` is a library of doubly linked lists threaded through index
arrays. `IndexSpec` and `HashIndex` are the hash chains and the invalid list, which share links;
`LruSpec`, `LruLaws` and `LruLists` the hot and warm lists, FIFO and LRU reclaim; `MergeWrites` the
clustering of writes, on top of the index; `PendingQueue` the table of waiting requests.

**Both together.** `SlotIndex` says what every step of the protocol does to state words and
blocks, and that the index allows it; `SetView` that what the index and the reclaim lists answer
is what the protocol assumes of a lookup and of a victim; `SetDriver` serves and drains requests
with the cache, a set's index and its reclaim lists at once. `SetCleaning` and `Cleaner` are the
background cleaning of a set, choice, merging and write-back, and the synchronisation of all sets.
`PendingLink` relates the pending table to the protocol's waiting lines. `Startup` sets all this up
for a new cache and after a crash or a restart, and shows that it stays in step over every run.
`Residency` says when a block is in the cache and when the disk is spared;
`WholeRequest` lets handlers and devices take turns until a request is through, and `Lifetime`
shows that a cache, from creation over requests, cleanings, power cuts and restarts, answers as the
disk alone would.

**Metadata and layout.** `MetadataIo` stores and loads the slot records through the 256 KB buffer;
`Layout` has the sizing, the address arithmetic, and what one set lock covers.

**Prefetching.** `PfdDetector` recognises runs and strides, `PfdStreams` keeps the 64 most recent
readers, `PfdGenerator` lists what to fetch, `PfdForesight` relates the list to the pattern and to
the prefetch cache, `PfdCache` is the slot protocol for any number of readers, fetches and resets,
and `PfdPrefetch` the same steps in place on the slot table.

Four things found on the way:

- The limits on cleanings under way bound what a pass chooses, not what it starts: the merging adds
  idle DIRTY neighbours without asking (`SetCleaning.LimitsKept` has the exact condition). Six
  DIRTY blocks in a row, one of them fallow, are all started under the default limits of two and
  four (`SetCleaning.SixStart`; `SetCleaning.RowExists` shows that a set of any size has such states).
- Slots are counted in an int. A cache of more than 2^31 slots does not get through creation: the
  loop ends early and the sector mismatch panic fires, except at 2^31 slots above a multiple of
  2^37, where the totals agree by wrap-around (`Layout.CompletedFits`). The metadata estimate, also
  32 bits wide, can overflow from about 2^37 blocks on (`Layout.CreateFits`), so it costs nothing
  up to 2^31 slots, and beyond them every creation that completes takes more than was asked for
  (`Layout.OversizedCompletes` is one). Store and load have the same limit
  (`MetadataIo.RemoveAndReload`).
- With disk clusters smaller than a block, a block's sectors can hash to two sets. The constructor
  compares the cluster with `assoc * block_shift`, which lets such clusters through
  (`Layout.OneLock` has the exact condition, `Layout.TwoSetsAccepted` a case).
- With one-sector blocks a backward prefetch list can evict its own first entries
  (`PfdForesight.OneSectorEvicts`); `PfdForesight.NoSelfEviction` says exactly when.

Where code and comments disagree the code is followed: demotion exchanges a hot block with the MRU
end of the warm list, though the comment there speaks of the LRU end.

## Model

| member | source | states |
|---|---|---|
| `Guarantees.CrashConsistency` | `src/flashcache_main.c:775-1144` | Power may fail in any reachable state: for every block without an unfinished write, the DIRTY on-SSD records overlaid on the disk give exactly what the running cache would have served, the reloaded cache serves the same, and (unless two writes of the block have overlapped, or a crash cut one off, since the last write of the whole block that met no other) it is what replaying the acknowledged writes over the initial disk gives |
| `Guarantees.CrashAtomicity` | `src/flashcache_main.c:775-1030` | With one unfinished write of a block that met no other, a crash leaves the old content or all of the write |
| `Guarantees.Coherence` | `src/flashcache_main.c:2385-2484` | In every reachable state and all three modes an idle VALID slot that is not DIRTY holds the disk content of its block, unless an uncached write of that block has been started and not ended |
| `Guarantees.EndedOnce` | `src/flashcache_main.c:375-391` | Every request ever submitted is in exactly one of three groups: unfinished, ended exactly once, cut off by a crash |
| `Guarantees.HeldOnce` | `src/flashcache_main.c:489-565` | An unfinished request is with exactly one slot job, pending entry, drain entry or uncached job, and these hold nothing else |
| `Guarantees.QueuedCount` | `src/flashcache_subr.c:366-436` | nr_queued equals the requests waiting for the slot (in the table plus detached by its drain), is positive only with an I/O bit set, and I/O bits are set exactly while a job or drain owns the slot |
| `Guarantees.VictimIdle` | `src/flashcache_reclaim.c:439-494` | A slot whose state word is exactly VALID, as reclaim demands of a victim, has no job, no waiting request and nr_queued 0 |
| `Guarantees.MetadataFollows` | `src/flashcache_main.c:774-850` | Between metadata writes every record carries the in-core DIRTY bit and the dbn of a DIRTY slot; a write in flight carries that or the outcome of the slot's own job; a slot with an update is on its block's lists exactly once, any other slot not at all |
| `Guarantees.RegisterLaw` | `src/flashcache_main.c:2128-2190` | A read no write of its block overlapped returns the content at its submission; such a write leaves that content patched by it |
| `WriteOrder.NothingInvented` | `src/flashcache_main.c:2385-2408` | Also for writes that overlap, whatever the interleaving and the crashes: the disk, the last answered content and the result of every request of a block are its initial content patched by some sequence of submitted writes of that block |
| `WriteOrder.StepMade` | `src/flashcache_main.c:187-2484` | Every kind of step keeps any property that all writes of a block keep, for everything the cache holds or has answered for the block |
| `Guarantees.Transparent` | `src/flashcache_main.c:489-565` | No step (cleaning, draining, metadata, crash and reload included) changes what a block reads as, except a write of it |
| `Theorems.StepKeeps` | `src/flashcache_main.c:187-565` | Each of the 25 kinds of step keeps the invariant: slot words fit their jobs, requests are held once, records follow DIRTY bits, contents are where they should be |
| `Theorems.StartInv` | `src/flashcache_conf.c:398-585` | A newly created cache satisfies the invariant |
| `Theorems.ReachableGood` | `src/flashcache_main.c:187-2484` | Every reachable state satisfies the invariant, whatever the interleaving |
| `CrashProofs.RecoveredContent` | `src/flashcache_conf.c:742-772` | In a state satisfying the invariant the DIRTY records overlaid on disk give the last acknowledged content of every block without an unfinished write |
| `CrashProofs.CrashKeeps` | `src/flashcache_conf.c:706-786` | The unclean reload of any crashed state satisfies the invariant again |
| `CrashProofs.RemountKeeps` | `src/flashcache_conf.c:194-284` | So does a clean removal followed by a reload |
| `Durability.StepDurable` | `src/flashcache_main.c:375-391` | Each step keeps the register equal to the replay of the log of acknowledged requests; a block whose writes overlapped, or were cut off by a crash, is excused only until a write of the whole block has met no other |
| `Durability.WholeWriteForgets` | `src/flashcache_main.c:375-391` | The replay of a log with a write of a whole block in it does not depend on anything before that write |
| `Accounting.CountersTrue` | `src/flashcache_main.c:884-951` | In every reachable state cached_blocks, nr_dirty (set and global), dirty_fallow and clean_inprog equal the true counts |
| `Accounting.NoCounterPanic` | `src/flashcache_main.c:1177-1357` | Hence the driver's checks on these counters hold, and fallow bits are only on idle DIRTY slots |
| `Accounting.StepCounts` | `src/flashcache_main.c:187-220` | Each step keeps the counters equal to the counts |
| `Progress.NoDeadlock` | `src/flashcache_main.c:489-565` | A state not at rest has a productive step that is enabled |
| `Progress.ProductiveLowers` | `src/flashcache_main.c:774-1030` | Every productive step lowers one lexicographic measure, so they cannot go on forever |
| `Progress.EveryRequestEnds` | `src/flashcache_main.c:375-391` | From every reachable state productive steps lead to a state at rest in which every request that was unfinished has been ended, with none lost |
| `Driver.Cache.constructor` | `src/flashcache_conf.c:398-585` | A new cache is in the start state of the protocol |
| `Driver.Cache.CopyOut` | `src/flashcache_main.c:797-833` | The two loops over the metadata block yield each slot's in-core record, overridden by the outcome of each job of the batch |
| `Driver.Cache.MdWriteKickoff` | `src/flashcache_main.c:774-850` | Kicking off is one protocol step; afterwards the queue of the metadata block is empty, and every update of it that is under way is in the write with the record that update is to leave |
| `Driver.Cache.MdWriteDone` | `src/flashcache_main.c:852-990` | Finishing a metadata write is one step per job of the batch, once each, so that none of them has an update under way any more, and then the next queued update starts or the block goes idle |
| `Batching.KickoffTakesAll` | `src/flashcache_main.c:801-833` | In every reachable state a kickoff leaves no update of its metadata block behind: all those under way, queued ones included, are in the write, each with the record it is to leave |
| `Batching.BatchCompletes` | `src/flashcache_main.c:852-990` | Over any run: from a kickoff to the end of its write, whatever else happens, every slot whose update went into the write is finished, DIRTY if it was a write and clean if it was a cleaning |
| `SlotIndex.StepTouches` | `src/flashcache_main.c:187-2484` | Every kind of step but crash and reload changes the state word and block of at most one slot, and which |
| `SlotIndex.StepLegal` | `src/flashcache_main.c:599-719` | ... and only in a way the set's index allows: other bits of a VALID slot, an idle clean slot dropped, a busy clean one into limbo, one in limbo freed, or a block no VALID slot has put into an exactly VALID or INVALID slot of its set |
| `SetView.WalkIsLookup` | `src/flashcache_subr.c:290-336` | What a walk of a hash chain finds is what the protocol assumes of a lookup, over the whole cache |
| `SetView.InvalidIsClaimable` | `src/flashcache_main.c:643-654` | The head of the invalid list is a slot the protocol lets a missing block claim |
| `SetView.LruIsClaimable` | `src/flashcache_reclaim.c:439-494` | So is whatever LRU reclaim picks |
| `SetView.FifoIsClaimable` | `src/flashcache_reclaim.c:65-92` | ... and whatever FIFO reclaim picks |
| `Startup.Create` | `src/flashcache_conf.c:1251-1264` | A new cache has every set indexed and listed: index and reclaim lists agree with the slots from the first step on |
| `Startup.Reload` | `src/flashcache_conf.c:706-786` | So has the cache loaded after a power loss in any reachable state, or after a clean removal: the load is one protocol step, and the index built slot by slot agrees with what was loaded |
| `Startup.IndexFollows` | `src/flashcache_main.c:599-719` | Every kind of step, all 25: the index of any set, rebuilt by a crash or a reload and else updated by operations it allows, is consistent again and has exactly the state words and blocks of its slots |
| `Startup.RunIndexed` | `src/flashcache_main.c:599-719` | So in every state of every run, from creation over crashes and reloads, the index of every set has exactly the set's slots, provided only that INVALID slots claimed are the ones it gives out |
| `Startup.RunLookups` | `src/flashcache_subr.c:290-336` | ... and walking the chain of a block answers there what the protocol demands of a lookup |
| `SetDriver.Lookup` | `src/flashcache_main.c:670-719` | The lookup returns the VALID slot of the block, else the first INVALID slot taken off its list, else the LRU or FIFO victim, none only if no slot is exactly VALID or INVALID; what it returns is what the protocol demands. A hit on an idle slot is counted and makes it the last of its list or promotes it, an INVALID slot taken becomes the last, a victim starts again with no uses, the FIFO cursor moves behind its victim, and nothing else moves in the lists |
| `SetDriver.Map` | `src/flashcache_main.c:2128-2190` | A request, uncached, hit, miss or queued, is one protocol step with the lookup and the victim computed from chains and lists, which afterwards have the set's slots again; an INVALID slot not needed is put back; the reclaim lists are what the lookup left, unchanged if the request went past the cache |
| `SetDriver.DoPending` | `src/flashcache_main.c:489-565` | A DIRTY slot is cleaned first; else it goes into limbo, exactly its waiting requests are replayed in arrival order, each with a lookup of its own, and it goes on the invalid list |
| `SetDriver.UncachedIoComplete` | `src/flashcache_main.c:2409-2445` | Completion looks the block up and invalidates it again; the request is queued for another round or ended |
| `SetCleaning.FirstExact` | `src/flashcache_main.c:1222-1317` | The blocks a pass picks are wanted blocks in order, at most as many as there is room for, and all of them if room is left |
| `SetCleaning.Select` | `src/flashcache_main.c:1222-1327` | Before merging a pass has chosen fallow blocks in slot order as the limits allow, then, unless the limits stopped that, idle DIRTY blocks in reclaim order, oldest first: until no room is left, no more than the threshold are left, or none is left to choose; never more than the excess; and under the threshold, if forced, one whenever one is among the first looked at; has looked no further than the last one chosen; and has marked exactly those |
| `SetCleaning.ThresholdLaw` | `src/flashcache_main.c:1256-1327` | A pass with no fallow block held back ends with the room used up, the excess over the threshold chosen, or all idle DIRTY blocks of the order chosen, and beyond the fallow ones chooses no more than the excess |
| `SetCleaning.ForcedLaw` | `src/flashcache_main.c:1256-1327` | A forced pass of a set under its threshold with nothing fallow chooses an idle DIRTY block whenever one is among the first so many of the order and there is room |
| `SetCleaning.OrderLaw` | `src/flashcache_main.c:1256-1317` | Blocks chosen for the threshold are the oldest: whatever idle DIRTY block comes before one of them in the reclaim order is chosen too |
| `SetCleaning.SelectedFits` | `src/flashcache_main.c:1168-1176` | The blocks chosen are idle and DIRTY and fit the room both limits leave |
| `SetCleaning.Clean` | `src/flashcache_main.c:1222-1353` | With the merging: exactly the blocks joined to a chosen one by an unbroken run of idle DIRTY blocks start being written back, no other slot changes, and the cleanings under way grow by their number, at most the set's size |
| `SetCleaning.LimitsKept` | `src/flashcache_main.c:1168-1176` | So the limits on cleanings hold afterwards iff the runs joined to the chosen blocks fit the room there was |
| `SetCleaning.SixStart` | `src/flashcache_subr.c:778-835` | They need not: in every consistent set of 256 blocks or more whose idle DIRTY blocks are six in a row, one of them fallow, a pass under limits of 2 and 4 with nothing under way chooses that one and starts six cleanings |
| `SetCleaning.RowExists` | `src/flashcache_main.c:1222-1245` | Every size of set can be in such a state, for any six consecutive blocks that belong to it |
| `Cleaner.CleanSet` | `src/flashcache_main.c:1177-1357` | The whole function: nothing outside write-back mode; else the sweep marks every idle DIRTY slot older, and from there the pass cleans exactly what is joined to its choice, the FIFO cursor moving by the blocks looked at; afterwards the limits are reached, or no more blocks than the threshold are DIRTY and not being cleaned, or no idle DIRTY one is left, and no fallow block is left if fallow ones were due |
| `Cleaner.PassLawful` | `src/flashcache_main.c:1222-1357` | What a pass leaves of the set: cleaned down to the threshold, forced or fallow blocks cleaned, unless the limits stopped it |
| `Cleaner.SyncBlocks` | `src/flashcache_main.c:2300-2373` | Nothing with no DIRTY block; else every idle DIRTY block passed is being written back, other slots change only by being merged with such, and the walk, which takes the first block after crossing into a set without asking, stops at the end of the cache or with the limit reached |
| `PendingLink.StepLines` | `src/flashcache_main.c:489-565` | Every kind of step adds at most one request to one slot's line or takes one line out whole, and which; a crash empties all lines, and a clean restart finds them empty |
| `PendingLink.FirstComeFirstServed` | `src/flashcache_main.c:489-565` | In every reachable state: whoever waits for a slot, in the table or already taken out of it, is served in the order of arrival; a step leaves that line, adds one request at its end, or takes its first to replay it; until a crash |
| `PendingLink.Open` | `src/flashcache_conf.c:706-786` | The table made for a new or a loaded cache carries the protocol's lines, of which there are none |
| `PendingLink.Put` | `src/flashcache_subr.c:366-395` | The pending table then has every slot's waiting requests in the protocol's order |
| `PendingLink.TakeAll` | `src/flashcache_main.c:517-526` | Walking what the table gives out for a slot yields exactly the protocol's waiting requests, first come first, and leaves the other lines |
| `Driver.Tally` | `src/flashcache_conf.c:1251-1264` | The counting loop finds the true counts, overall and per set |
| `Driver.Load` | `src/flashcache_conf.c:706-786` | A cache loaded from the SSD is the protocol's next state after a crash or a clean removal, its slots what their records say |
| `WholeRequest.Serve` | `src/flashcache_main.c:2128-2190` | A request given to a quiet cache, through lookup, queueing, draining, device I/O, completions and metadata writes, ends, leaves the cache quiet with its index and lists in order, returns what its block held (a write: what it made of it), and changes no other block. If it may be cached its block is in a slot afterwards, the one it was in or else an INVALID one before an exactly VALID one, unless none can be had or a read is not to fill the cache; it is DIRTY then only after a write-back write or if it was, and the disk has been read only by a miss and written only by a write through. If it goes past the cache no slot has the block afterwards |
| `WholeRequest.Settle` | `src/flashcache_main.c:187-565` | Handlers and devices taking turns come to rest, whatever has been begun, and the request under way has got its answer |
| `WholeRequest.CleanOne` | `src/flashcache_main.c:1177-1357` | A DIRTY block written back and recorded clean on nobody's behalf stays in its slot, now exactly VALID, and the disk has what the slot holds; other slots, what every block holds, and the log are as they were |
| `Residency.ServingOn` | `src/flashcache_main.c:187-565` | On the way every step of driver and devices keeps the block in its slot, other slots and the disk as they were but for a write through, and only a miss reads the disk |
| `Residency.StaysCached` | `src/flashcache_main.c:489-1030` | In every reachable state, whatever is under way: a VALID slot loses its block only by being taken for another one, by a request of its block that goes past the cache, by being drained, or by a crash; no completion, cleaning, metadata write or clean removal drops one |
| `Lifetime.Live` | `src/flashcache_main.c:187-2484` | From its creation on the cache answers any sequence of requests of a set exactly as the disk alone would, in every mode, with cleanings, power cuts and clean restarts between them |
| `IndexSpec.LookupIsScan` | `src/flashcache_subr.c:290-336` | Walking the chain of a block finds what a scan of the whole set finds: the one VALID slot of that block, or none |
| `IndexSpec.ApplyConsistent` | `src/flashcache_main.c:599-719` | Claims, replacements, invalidations, limbo and freeing keep every VALID slot on exactly its block's chain and every free INVALID slot on the invalid list exactly once |
| `IndexSpec.RunLookup` | `src/flashcache_subr.c:158-358` | After any sequence of these operations every lookup agrees with the scan |
| `HashIndex.CacheSet.InvalidGet` | `src/flashcache_subr.c:158-173` | The first slot of the invalid list comes off it; -1 iff the list is empty |
| `HashIndex.CacheSet.InvalidInsert` | `src/flashcache_subr.c:175-199` | The slot becomes the first of the invalid list, all other lists unchanged |
| `HashIndex.CacheSet.InvalidRemove` | `src/flashcache_subr.c:201-231` | The slot leaves the invalid list, its links NULL |
| `HashIndex.CacheSet.HashInsert` | `src/flashcache_subr.c:338-364` | The slot becomes the first of its block's chain |
| `HashIndex.CacheSet.HashRemove` | `src/flashcache_subr.c:260-288` | The slot leaves its block's chain, wherever on it |
| `HashIndex.CacheSet.HashLookup` | `src/flashcache_subr.c:290-336` | Returns the global index of the set's VALID slot with the block, or -1 iff a scan finds none |
| `HashIndex.CacheSet.Claim` | `src/flashcache_main.c:1557-1569` | A missing block takes an INVALID slot or replaces the block of a VALID one |
| `HashIndex.CacheSet.Drop` | `src/flashcache_main.c:1764-1771` | An idle clean slot goes from its chain to the invalid list |
| `HashIndex.CacheSet.EnterLimbo` | `src/flashcache_main.c:510-517` | A slot about to be drained leaves its chain and is on no list |
| `HashIndex.CacheSet.LeaveLimbo` | `src/flashcache_main.c:556-560` | ... and enters the invalid list when drained |
| `HashIndex.CacheSet.BuildIndex` | `src/flashcache_conf.c:1251-1264` | Indexing the slots of a new or a loaded set one after the other yields the consistent index of exactly those slots |
| `LruSpec.RunBalanced` | `src/flashcache_reclaim.c:95-187` | After any run of accesses, reclaims and rebalances every slot is on exactly one list, hot slots have use count 0, and the hot list has exactly assoc*pct/100 slots |
| `LruSpec.VictimExact` | `src/flashcache_reclaim.c:439-494` | LRU reclaim finds a victim iff some slot's state is exactly VALID; hot slots only when no warm one qualifies |
| `LruSpec.FirstFound` | `src/flashcache_reclaim.c:447-462` | The walk of a list stops at the first slot that qualifies |
| `LruSpec.RebalancedKeeps` | `src/flashcache_reclaim.c:95-154` | Rebalancing to a legal percentage gives the hot list its new share, to an illegal one changes nothing |
| `LruSpec.AccessedKeeps` | `src/flashcache_reclaim.c:513-545` | An access keeps the split and the hot list's size |
| `LruSpec.ReclaimedKeeps` | `src/flashcache_reclaim.c:439-494` | So does a reclaim |
| `LruLaws.AccessUses` | `src/flashcache_reclaim.c:513-545` | An access makes its slot the last of its list or promotes it, and leaves all others in the order they were in |
| `LruLaws.NotReclaimed` | `src/flashcache_reclaim.c:439-494` | So reclaim does not return a slot just used while another warm slot is exactly VALID |
| `LruLaws.PromotedExactly` | `src/flashcache_reclaim.c:527-543` | Over any run a warm slot becomes hot by exactly the use with which its uses since it was last moved to warm or claimed, counted in a byte, reach the threshold, if there is a hot slot to exchange with |
| `LruLaws.PromotedAtThreshold` | `src/flashcache_reclaim.c:527-543` | With one threshold of 1 to 255 throughout that is the use that makes the threshold |
| `LruLaws.RebalanceMoves` | `src/flashcache_reclaim.c:95-154` | A larger share makes the least recently used warm slots hot, a smaller one the least recently used hot slots warm, as many as it takes |
| `LruLists.ReclaimSet.InitLruLists` | `src/flashcache_reclaim.c:156-187` | The first slots of a set become hot, the rest warm, in two well-formed lists |
| `LruLists.ReclaimSet.Remove` | `src/flashcache_reclaim.c:190-260` | The slot leaves its list; counters, heads and tails follow |
| `LruLists.ReclaimSet.AddMru` | `src/flashcache_reclaim.c:262-301` | The slot becomes the MRU end of the list its flag names |
| `LruLists.ReclaimSet.AddLru` | `src/flashcache_reclaim.c:303-342` | The slot becomes the LRU end |
| `LruLists.ReclaimSet.MoveToMru` | `src/flashcache_reclaim.c:344-357` | The slot moves to the MRU end of its own list |
| `LruLists.ReclaimSet.PromoteBlock` | `src/flashcache_reclaim.c:360-392` | A warm slot and the hot list's LRU end change places, if there is one |
| `LruLists.ReclaimSet.DemoteBlock` | `src/flashcache_reclaim.c:395-427` | A hot slot and the warm list's MRU end change places, if there is one |
| `LruLists.ReclaimSet.Accessed` | `src/flashcache_reclaim.c:513-545` | Hot or INVALID slots move to MRU; warm ones count their use in a wrapping byte and are promoted at the threshold |
| `LruLists.ReclaimSet.LruGetOldBlock` | `src/flashcache_reclaim.c:439-494` | Returns the first exactly-VALID slot in warm, then hot order, and requeues it; -1 if none |
| `LruLists.ReclaimSet.Rebalance` | `src/flashcache_reclaim.c:95-154` | Moves exactly the slots between the LRU ends that the new share asks for |
| `LruLists.ReclaimSet.FifoGetOldBlock` | `src/flashcache_reclaim.c:65-92` | Returns the first exactly-VALID slot cyclically from the cursor and leaves the cursor behind it |
| `LruLists.FifoExact` | `src/flashcache_reclaim.c:65-92` | The slot found is the nearest one after the cursor |
| `LruLists.FifoComplete` | `src/flashcache_reclaim.c:65-92` | FIFO reclaim finds a slot iff one is exactly VALID |
| `MergeWrites.MergeWrites` | `src/flashcache_subr.c:778-835` | Returns, strictly ascending by block and within assoc entries, exactly the given blocks and every idle dirty block of the set joined to one by an unbroken run of such blocks; exactly those are newly marked |
| `MergeWrites.Extend` | `src/flashcache_subr.c:789-826` | One direction: extends until the next block is not an idle dirty block of the set; terminates because idle dirty slots run out |
| `MergeWrites.ExactlyJoined` | `src/flashcache_subr.c:778-835` | A list closed under dirty neighbours holds exactly what is joined to the chosen blocks |
| `MergeWrites.SortedAscending` | `src/flashcache_subr.c:751-776` | Sorting by block yields a sorted permutation, strictly ascending when blocks differ |
| `PendingQueue.PendingTable.Enqueue` | `src/flashcache_subr.c:366-395` | The job is last in line for its slot; every other line is unchanged |
| `PendingQueue.PendingTable.Dequeue` | `src/flashcache_subr.c:397-436` | Exactly the slot's jobs come out, in arrival order, chained by next; every other line is unchanged and the count drops by their number |
| `PendingQueue.OthersMatching` | `src/flashcache_subr.c:397-436` | Taking one slot's jobs out of a bucket leaves those of every other slot in order |
| `MetadataIo.Store` | `src/flashcache_conf.c:217-284` | The records of the slots an int can count, 2^31, end up at their places and no other sector is written; buffer accesses stay in bounds; it completes iff the two sector totals agree as ints |
| `MetadataIo.CompletesIff` | `src/flashcache_conf.c:276-284` | They agree for every size up to 2^31 slots; above, the sector mismatch panic fires unless the totals differ by a multiple of 2^32 |
| `MetadataIo.Load` | `src/flashcache_conf.c:706-786` | Done iff there are at most 2^31 slots and no record taken is both VALID and INVALID, and then every slot has what is to be kept of its record (all after a clean stop, DIRTY ones otherwise); beyond 2^31 slots the int index turns negative |
| `MetadataIo.RemoveAndReload` | `src/flashcache_conf.c:194-284` | Store then load are both done iff there are at most 2^31 slots, and then restore every slot's dbn and INVALID, VALID and DIRTY bits, for every legal block size |
| `MetadataIo.RecPlace` | `src/flashcache.h:573-586` | Metadata blocks are contiguous: a slot's record is that many records behind the superblock |
| `Layout.CompletedFits` | `src/flashcache_conf.c:436-553` | For every request the constructor accepts and whose cache passes the capacity test: writing the metadata completes iff there are at most 2^31 slots, or 2^31 above a multiple of 2^37; a creation that completes fits the sectors asked for iff there are at most 2^31 slots |
| `Layout.OversizedCompletes` | `src/flashcache_conf.c:436-553` | A request of 139655710976 one-sector blocks completes beyond that, by wrap-around, and does not fit |
| `Layout.CreateFits` | `src/flashcache_conf.c:436-453` | For every such request what create sizes fits the sectors asked for iff the metadata estimate fits the 32 bits it is computed in |
| `Layout.NotTiny` | `src/flashcache_conf.c:446-453` | For every accepted request the estimate is no larger than the request, so the subtraction does not wrap |
| `Layout.TinyRefused` | `src/flashcache_conf.c:446-453` | Requests under 16 sectors, where it does wrap, are refused as larger than the SSD |
| `Layout.OrdinaryFits` | `src/flashcache_conf.c:436-453` | Every accepted request of up to 2^36 sectors fits |
| `Layout.OversizedAccepted` | `src/flashcache_conf.c:436-453` | 2^37 one-sector blocks on an SSD twice that size pass the capacity test, though slots and metadata come to more than was asked for |
| `Layout.EnoughToCreate` | `src/flashcache_conf.c:436-453` | Three metadata blocks' worth of sectors is always more than the estimate |
| `Layout.AddressInverse` | `src/flashcache.h:573-586` | CACHE_ADDR_TO_INDEX maps every sector of a slot's data block back to the slot |
| `Layout.DataInArea` | `src/flashcache.h:573-586` | Data blocks are pairwise disjoint, behind the metadata and within the footprint |
| `Layout.MdInArea` | `src/flashcache.h:573-586` | Metadata blocks are equal or disjoint, behind the superblock and before the data |
| `Layout.MdBlockInOneSet` | `src/flashcache_main.c:796-844` | All slots of a metadata block are in one set |
| `Layout.WholeBlocks` | `src/flashcache_conf.c:1082-1087` | Sets accepted by the constructor are whole metadata blocks |
| `Layout.OneLock` | `src/flashcache_main.c:1585-1595` | Whatever the hash function, all sectors of every block hash to one set iff disk clusters are unused or at least as large as a block |
| `Layout.TwoSets` | `src/flashcache_main.c:599-624` | With clusters smaller than a block two sectors of one block can hash to two sets |
| `Layout.TwoSetsAccepted` | `src/flashcache_conf.c:1023-1037` | The constructor lets such clusters through: blocks of 512 sectors with clusters of 256 |
| `Layout.FastInvalidation` | `src/flashcache_main.c:1721-1770` | One lookup of the masked sector finds exactly the VALID slot the overlap scan would |
| `Layout.MissOverlapsNothing` | `src/flashcache_main.c:1870-1878` | After a missed lookup of a block nothing in the set overlaps it |
| `PfdDetector.Follow` | `src/pfd_stat.c:202-261` | The in-place update of the two run records, with their swap, is the observation that WatchedDescribes shows sound and StridesAreSeen complete |
| `PfdDetector.ObserveDescribes` | `src/pfd_stat.c:170-265` | One request keeps the counters true: the last stride_count*seq_total+seq_count requests follow the reported run length and stride, |stride| is at least a run's length, and runs are where they should be |
| `PfdDetector.WatchedDescribes` | `src/pfd_stat.c:170-265` | So over any trace the counters describe a suffix of it exactly |
| `PfdDetector.StridesAreSeen` | `src/pfd_stat.c:202-261` | And whatever is regular is seen: r + 1 runs of n blocks, d apart in either direction with |d| at least a run and not exactly the next block, the last run cut after c requests, are reported with run length n, stride d, stride count r and sequence count c; a plain run with its length |
| `PfdDetector.StridesAreSeenSoon` | `src/pfd_stat.c:202-261` | Whatever the reader has done before, the requests of such a run are all counted, and of the jumps all but the first two |
| `PfdStreams.StreamQueue.constructor` | `src/pfd_stat.c:103-119` | All entries unused, linked in order |
| `PfdStreams.StreamQueue.ElmToHead` | `src/pfd_stat.c:121-136` | The entry becomes the head, the others keep their order |
| `PfdStreams.StreamQueue.Search` | `src/pfd_stat.c:138-158` | Finds the reader's entry, or NULL iff it has none, though it stops at the first unused one |
| `PfdStreams.StreamQueue.Update` | `src/pfd_stat.c:170-265` | The request joins its reader's stream, evicting the least recent reader if new; the counters returned are those of all of the reader's requests since it was taken in |
| `PfdStreams.HistoryIsSuffix` | `src/pfd_stat.c:170-265` | What is remembered of a reader is a suffix of all it has read |
| `PfdStreams.MostRecentAreKnown` | `src/pfd_stat.c:121-158` | After any trace the queue knows exactly the 64 most recent readers, in that order |
| `PfdGenerator.GetPrefetchDbns` | `src/pfd_stat.c:292-391` | For counters from the detector it terminates, writes only the first 256 places, and its entries are sectors of the disk that continue the pattern. With less than four requests covered the list is empty; without a stride its length is the least of the requests covered, 256 and the whole steps left on the disk; with a stride it has every request to come up to that, until the disk ends (backward: a run that would go below sector 0 is dropped whole) or the whole strides listed reach 16384 sectors |
| `PfdGenerator.Downwards` | `src/pfd_stat.c:351-388` | Backward: the rest of the run and the runs below, each from its top |
| `PfdGenerator.Upwards` | `src/pfd_stat.c:331-350` | Forward stride: the rest of the run, then the next runs |
| `PfdGenerator.DetectorIsLegal` | `src/pfd_stat.c:263-267` | What the detector reports of a stream on the disk is legal input to the generator |
| `PfdForesight.ForwardIsNext` | `src/pfd_stat.c:331-350` | Forward, entry i is request i of the pattern after those covered |
| `PfdForesight.ForetoldIsDetected` | `src/pfd_stat.c:170-265` | If the stream makes the k requests foretold, the detector reports the same pattern, k requests longer |
| `PfdForesight.BackwardIsToCome` | `src/pfd_stat.c:351-388` | Backward, every entry is a request still to come, each listed once |
| `PfdForesight.BackwardMissesNone` | `src/pfd_stat.c:351-388` | A backward list of whole runs misses none of their requests |
| `PfdForesight.NoSelfEviction` | `src/pfd_stat.c:310-322` | Entries of one list have pairwise different slots of the 16384-slot cache, iff it is not a backward list of one-sector blocks reaching one cache length below the top of the current run |
| `PfdForesight.PrefetchOfTrace` | `src/pfd_stat.c:310-322` | For every aligned trace the list is legal, and with blocks of two sectors or more never evicts its own entries |
| `PfdForesight.LengthOfTrace` | `src/pfd_stat.c:299-331` | For every trace on the disk the list is as long as the requests its reader's pattern covers call for, in the sense above, and forwards it ends only before a request that is not on the disk |
| `PfdForesight.OneSectorEvicts` | `src/pfd_cache.c:81-87` | A concrete trace of one-sector reads whose list does |
| `PfdPrefetch.PrefetchAhead` | `src/pfd_cache.c:444-530` | From a trace to the slots: the list made of any aligned trace continues its pattern on the disk, and fetching it leaves every block of it being fetched into its own slot, unless it was there or the slot in use, and no other slot changed; always so with blocks of two sectors or more, else unless the list evicts itself |
| `PfdCache.StepKeeps` | `src/pfd_cache.c:236-332` | Every step of any number of readers, each for part of a block or all of it, of fetches and of resets keeps the slot invariant, hold counts included |
| `PfdCache.HitIsOwnBlock` | `src/pfd_cache.c:236-300` | A reader that reports a hit copied only pieces fetched for its own block, all by one fetch |
| `PfdCache.HitIsBuffer` | `src/pfd_cache.c:278-292` | The copy reported is as much of the buffer as was asked for, of a slot that is still the block's |
| `PfdCache.NeverRetargeted` | `src/pfd_cache.c:489-509` | A prepared or held slot keeps its block; a held valid slot keeps status and buffer; a buffer changes only by its own fetch |
| `PfdCache.HeldCounts` | `src/pfd_cache.c:263-300` | A slot a reader is using has a positive hold count |
| `PfdCache.NobodyStuck` | `src/pfd_cache.c:266-273` | A waiting reader can take the semaphore, or someone is about to raise it, or its fetch is still under way |
| `PfdCache.PrefetchPays` | `src/pfd_cache.c:258-300` | A prefetch pays off: after it has succeeded a read of its block is a hit and gets what was fetched |
| `PfdCache.StaysFetched` | `src/pfd_cache.c:489-570` | ... and a valid slot keeps block and buffer through every step until, held by nobody, it is claimed for another block or reset |
| `PfdPrefetch.SlotTable.BeginRead` | `src/pfd_cache.c:258-270` | The lookup section holds the slot iff it is the block's and not empty, and waits iff it is being prepared |
| `PfdPrefetch.SlotTable.EndWait` | `src/pfd_cache.c:266-269` | The semaphore is raised again after a wait, interrupted or not |
| `PfdPrefetch.SlotTable.EndRead` | `src/pfd_cache.c:270-300` | A hit iff the slot is valid; the copy is the start of the buffer, of the request's length, fetched for the block by one fetch; the hold is dropped either way |
| `PfdPrefetch.SlotTable.PrefetchOne` | `src/pfd_cache.c:489-529` | Claims and dispatches iff the block is not there and the slot is free |
| `PfdPrefetch.SlotTable.Prefetch` | `src/pfd_cache.c:444-530` | The whole list, from its start or backwards from its end, is claimed block by block |
| `PfdPrefetch.SlotTable.Reset` | `src/pfd_cache.c:532-570` | Succeeds iff no slot is prepared or held; empties exactly the slots before the first that is |
| `PfdPrefetch.BatchIsFetched` | `src/pfd_cache.c:477-529` | With slots of their own, no block of the list displaces another: each is being fetched into its slot unless it was there or the slot was in use; other slots are unchanged |
| `PfdPrefetch.ListIsApart` | `src/pfd_cache.c:477-529` | A list that does not evict itself is such a list, in either order |

## Left out

- Device errors and failed allocations, hence `flashcache_do_pending_error`, bypass mode and the `-ENOMEM` path of uncached completion.
- Device removal under way (`remove_in_prog`), stop of synchronisation, the reboot notifier; a clean removal is a step taken when nothing is under way.
- Data writes are atomic per block and metadata writes per slot record; ordering inside the kernel's copy service is read, then write.
- Marking a slot DISKWRITEINPROG and starting its writeback, which the code separates by dropping the lock, are one step: nothing may touch a marked slot in between.
- WRITEDISK and WRITEDISK_SYNC jobs are one action; they differ only in which cleaning they trigger next, and here cleaning may start at any time.
- The set locks themselves: critical sections are atomic. `Layout` shows which set a request and a metadata block belong to.
- SetDriver.Map: the answers of the cacheability checks are a parameter, and the queue of metadata updates behind it is a sequence, not a chain of jobs.
- SetDriver.DoPending: takes the waiting requests from the slot's own line; `PendingLink` shows that the table's walk yields that line.
- Cleaner.CleanSet: whether a sweep and fallow cleaning are due is a parameter (clocks), the delayed retry is not modelled, and the reclaim order is read off before the first block is picked, which picking does not change.
- Cleaner.SyncBlocks: the place it has reached is a set and a slot of it instead of one index.
- Startup.Create: one set is set up, not all in one loop over the slots, whose int counter is modelled in `MetadataIo` only.
- WholeRequest.Serve: one request at a time, and the device I/Os in one fixed order; the protocol has every interleaving.
- Lifetime.Live: the requests are of one set, any of the cache's; the other sets stay quiet.
- PendingQueue.PendingTable.Enqueue: jobs are named by their place in a pool; allocation from the pool is not modelled.
- MergeWrites.MergeWrites: the kernel's sort is a function (`Sorted`, proved a sorted permutation), not its in-place heap sort.
- LruLists.ReclaimSet.Accessed: the linking and unlinking of each list end are methods of their own rather than one long body.
- MetadataIo.Store: the superblock that is written after the records is not modelled; ints wrap around.
- MetadataIo.Load: the superblock's own fields, its version upgrade and the checksum field are not modelled.
- PfdDetector.Follow: the two run records are exchanged as values instead of through pointers to them.
- PfdGenerator.GetPrefetchDbns: `long` is unbounded.
- The scan by which caches of on-SSD versions before 3 find what a request overlaps is related to the hash lookup (`Layout.FastInvalidation`), not made a step of its own.
- PfdCache.StepKeeps: fetching from the SSD instead of the disk is left out, with the busy bit its completion clears and the slot its lookup may take off the invalid list; nor is the prefetch cache kept fresh against writes, which no write path does.
- PfdPrefetch.SlotTable.Prefetch: no other thread runs between two blocks of one batch; `PfdCache` covers interleaving.
- The table of up to four prefetch caches, and registering one, are not modelled.
- `nr_queued` and the counters are unbounded integers.
- The separate write-through module, ioctl process lists, the sequential-I/O tracker, statistics, `/proc`, sysctl and the command-line tools.
- `prefetchd_cache.c`, `prefetchd_stat.c` (not built) and `flashcache_kcopy.c` (disabled).
