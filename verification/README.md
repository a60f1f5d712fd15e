# A verified model of libtaomee's hard parts

This project models five parts of libtaomee in Dafny and proves what they are for:

* the incremental tri-colour garbage collector of the bundled Lua (`lua/lgc.c`, with the parts of `lua/lfunc.c` and
  `lua/lstring.c` that meet it): modules `Gc*`;
* the Lua table, an array part beside a chained scatter table (`lua/ltable.c`): modules `Table*` and `LuaTables`;
* the single-producer, single-consumer ring in shared memory (`interprocess/shmq.c`): modules `ShmRing*`;
* the dirty-word matcher, an Aho-Corasick automaton over normalised UTF-8 (`tm_dirty/acsm.c`, `tm_dirty/utf8_punc.c`): modules
  `Acsm*`, `Utf8Punc`, `Utf8Points` and `Brackets`;
* the timer wheel (`timer.c`, `timer.h`; modules `Timer*`), the dumping and loading of precompiled chunks (`lua/ldump.c`,
  `lua/lundump.c`, `lua/lzio.c`; modules `Chunk*`) and DES (`crypt/qdes.c`; modules `Des*`).

Code that updates its state in place is modelled by classes and methods over that state (`Collector`, `LuaTable`, `Acsm`,
`Wheel`, `Zio`, `Loader`, `Dumper`, and methods over arrays in `AcsmStars`, `AcsmReplace` and `Des`). Each method is
specified by a function of the old state or by the property itself; the lemmas are about those functions. The ring, whose
two processes run at the same time, is a state machine whose steps are single memory accesses. `dafny verify dfyconfig.toml`
checks everything.

## What is proved

* **Collector.** A run is any sequence of allocations, barriered writes, unbarriered stack writes, opening and closing
  of upvalues, string interning (which may revive a dead string), single collector steps and full collections. In
  every run whatever the program can reach is in the heap, is not dead, and is not freed by the next step
  (`GcRun.RunIsSafe`). The tri-colour invariant holds in every propagate state of every run (`GcView.RunIsTricolour`),
  a collection ends (`GcFull.StepsEnd`), neither a step nor a full collection changes anything the program can see
  (`GcRun.CollectorIsInvisible`, `GcView.FullGcIsInvisible`), and a full collection leaves exactly the reachable and
  the fixed objects (`GcExact.FullGcIsExact`). What every step changes in the heap is stated exactly, whatever the
  collector does in between (`GcEffects.RunIsExact`): a closure gets the upvalue that is open at its local, if there
  is one, and `luaF_close` closes those at its level and above and no others. In every run the slots along each
  thread's list of open upvalues strictly decrease, so no slot has two (`GcEffects.RunSlotsDescend`,
  `GcEffects.OnePerSlot`). What has been fixed is never freed (`GcFixed.RunFixes`).
* **Table.** For any program of reads, assignments and collector steps the table is a plain map
  (`LuaTables.LuaTable.Perform`), and stays one when an assignment fails with "table overflow"
  (`TableCases.OverflowKeepsContents`). Insertion keeps the scatter-table structure, so every walk ends.
  `computesizes` is optimal, and the sizes `rehash` asks for are exactly those needed, as long as no slot beyond 2^26
  is in use, so re-insertion never rehashes again. A traversal returns no key twice and misses none that is not
  cleared, even when entries are assigned or cleared and their keys collected meanwhile
  (`LuaTables.LuaTable.Traverse`).
* **Ring.** Over all interleavings the ring is a FIFO queue, byte for byte, with no access outside the mapping, no
  failed assertion and no overflow; a block handed out stays intact until the next pop; an empty ring never wedges.
  Wherever the consumer stands, an undisturbed push succeeds if and only if there is room, behind the tail or at the
  base (`ShmRingRuns.PushIsDecided`); and whatever the consumer does meanwhile, a push gives up only after ten looks
  in vain (`ShmRingRuns.GivesUpAfterTen`).
* **Matcher.** Whatever the table held before, `acsmCompile` builds the automaton in which every text leads to the
  state of its longest suffix that begins a pattern. The searches decide exactly whether a pattern is a substring of
  the filtered text or of its projections. What the filter drops, converts and keeps is stated by code points, for
  every text (`Utf8Points.FilterIs`), and so is what each round of a search reads of a text
  (`AcsmPoints.SearchReads`); texts that differ in case or width only are filtered alike. The replacement stays inside
  its buffers. What it looks for are occurrences in the padded text and in two projections of that: its flag says
  exactly whether there are any, and it stars them all, with or without the padding of full-width letters, but for one
  exception that is stated exactly (`AcsmReplace.PatternReplace`). On a given text search and replacement agree for
  all patterns if and only if neither reads anything of it that the other does not (`AcsmVerdicts.VerdictsAgree`).
* **Timers.** For every timer of every run, from any moment at which it is live: it is not called early; with scans at
  most a second apart it is called in the first scan at or after its time, and after a larger jump of the clock at the
  latest one scan later (`TimerWheel.Wheel.Run`, `TimerRuns.CalledInTime`). A timer whose function returns non-zero is
  called in every later scan, as long as it is left alone, until the function returns zero, and then never again
  (`TimerRuns.CalledOn`, `TimerWheel.Wheel.Run`). Within a scan the calls come in the order of the list. Two
  exceptions are part of the statement: a timer that is 2^31 seconds late when it is added may miss the first scan,
  and a timer is lost while its list has a recorded minimum that is too late for it, which is brought about by timers
  with expiry 0 only (see below).
* **Chunks.** Loading undoes dumping for every function whose sizes are representable, however the reader splits the
  bytes; exactly when loading fails is stated too. Where every field lies in a chunk is stated by offsets
  (`ChunkLayout.ChunkLies`), and which bytes are accepted as a chunk, and as which function, is stated without
  reference to dumping (`ChunkForms.UndumpAccepts`).
* **DES.** A block goes through the initial permutation of FIPS PUB 46-3, sixteen rounds, the exchange of the halves
  and the inverse permutation (`DesStandard.EcbIs`), where the permutation is the table of the standard bit by bit
  (`DesBits.TheTable`). Decryption undoes encryption, and the other way round, for every key schedule, every round
  function and every number of blocks.

## What the code does that its documentation does not say

* `lua/ltable.c:222-244`: `numusearray` counts only the first 2^26 slots, so `rehash` asks for as many nodes too few as slots
  beyond are in use (`TableStore.AskedIsNeeded`). The nodes made suffice if and only if rounding up to a power of two makes up
  for that (`TableStore.RoundingSuffices`; `TableStore.AskedTooLittle` is a table with which it does not).
* `tm_dirty/utf8_punc.h:57`: the digit 0 does not count as a number, so the filter drops it.
* `tm_dirty/utf8_punc.c:79-177`: on ill-formed text the filter is not idempotent (`Utf8Punc.FilterNotIdempotent`).
* `tm_dirty/acsm.c:291-297`: the loop that follows failure states never repeats, because all shallower rows are complete; the model
  takes its first value and proves it valid.
* `tm_dirty/acsm.c:711-723`: in the second round of the replacement, stars on the padding of full-width letters count as letters
  later, so a match that contains an earlier one may be starred in part only. As long as no match before it was blocked, a match
  is starred in full if and only if it is not blocked itself (`AcsmLetters.LetterRead`, `AcsmLetters.BlockedLeaves`);
  `AcsmWide.LeavesLetter` is a text with a word that is starred in part.
* `tm_dirty/acsm.c:462-760`: search and replacement may disagree on a text. With the pattern A1 the text A.1 is found dirty and
  nothing is starred (`AcsmVerdicts.FoundNotStarred`); with a digit between the two halves of a pattern of multi-byte characters
  a text is found clean and is starred (`AcsmVerdicts.StarredNotFound`). `AcsmVerdicts.VerdictsCompared` says what either
  verdict implies for the other.
* `timer.c:238-251`: the difference is kept in an `int`, so a timer that expired more than 2^31 seconds ago may be put among the
  distant ones (`TimerLists.PlacedRight` and `TimerLists.WrapsWhen` give the exact condition). Such a timer misses the first scan and
  is called in the second (`TimerWheel.DueWhenAdded`).
* `timer.c:262-268`: a recorded minimum of 0 stands for none. After a timer with expiry 0 has been put among the distant ones, the
  next timer that joins its list before the next scan sets the minimum of the list alone, and the timers that expire before it
  are lost until the list is scanned: `TimerLists.OverlaidAre` says which ones, and `TimerWheel.Forgotten` is a wheel on which two
  scans pass over a due timer.
* `timer.c:138-152`: there is no bound on the number of calls in a scan: two due timers whose functions each add another due
  timer keep it going for as long as they do (`TimerWheel.Endless`).
* `timer.c:162-164`: `mod_expire_time` ignores timers whose expiry is 0. `timer.c:315-329`: `refresh_timers_callback` takes the
  function away from timers that were added without a type.
* `lua/ldump.c:131` and `lua/lundump.c:164`: a function without a source comes back with the source of the function around it
  (`ChunkRoundTrip.NormIsSame` says exactly which trees come back unchanged).

## Model

| member | source | states |
|---|---|---|
| `GcTri.ReallyMarkObjectKeepsTri` | lua/lgc.c:69-112 | marking an object of any kind keeps the tri-colour invariant, userdata and upvalues with their references included |
| `GcTri.PropagateMarkKeepsTri` | lua/lgc.c:277-320 | traversing the first gray object keeps the tri-colour invariant |
| `GcTri.PropagateAll` | lua/lgc.c:323-325 | the loop ends with an empty gray list and the invariant kept; nothing marked turns white again |
| `GcTri.RemarkUpvalsEndsExemption` | lua/lgc.c:513-520 | after remarkupvals the invariant holds without the exemption of open upvalues |
| `GcMark.ReallyMarkObject` | lua/lgc.c:69-112 | the object is no longer white, every object marked before keeps its mark, and the grayagain list is untouched |
| `GcState.ReachableIsUsable` | lua/lgc.h:65-70 | under the invariant everything the program can reach is in the heap and not dead |
| `GcCycle.MarkRootKeepsInv` | lua/lgc.c:491-510 | starting a collection keeps the invariant |
| `GcCycle.AtomicKeepsInv` | lua/lgc.c:523-551 | the atomic step keeps the invariant, and the flip of the white makes exactly the objects left white dead |
| `GcSweep.SweepChainFacts` | lua/lgc.c:405-426 | a swept list keeps exactly the objects that are live or fixed, turns them to the current white, lists each of them once and touches nothing else |
| `GcSweep.SweepStringsKeepsInv` | lua/lgc.c:570-578 | sweeping one chain of the string table keeps the invariant |
| `GcRoot.SweepUpvalsKeepsInv` | lua/lgc.c:405-426 | sweeping the open upvalues of a thread keeps the invariant |
| `GcRoot.FreeRootKeepsInv` | lua/lgc.c:405-426 | freeing a dead object of the root list keeps the invariant |
| `GcRoot.PassRootKeepsInv` | lua/lgc.c:405-426 | passing a live object of the root list, turned white, keeps the invariant |
| `GcUpval.CloseOneKeepsInv` | lua/lfunc.c:96-112 | closing or freeing the first open upvalue keeps the invariant in every state of the collector, with the colour luaC_linkupval gives it |
| `GcUpval.CloseFrom` | lua/lfunc.c:96-112 | closing all upvalues from a level on ends and keeps the invariant; what it closes is stated by GcOrder.CloseFromIs |
| `GcOrder.CloseFromIs` | lua/lfunc.c:96-112 | in any state of the collector: of the upvalues of the thread none at or above the level stays open, those below it stay open where they were, and every upvalue left holds what it held; no other object changes |
| `GcStep.SweepRootSweeps` | lua/lgc.c:405-426 | a round of sweeplist frees only dead objects that are not fixed, changes no reference of the others, and shortens what is left to sweep |
| `GcStep.SingleStepKeepsInv` | lua/lgc.c:554-603 | singlestep keeps the invariant in each of the five states |
| `GcMutator.WriteKeepsInv` | lua/lgc.c:658-679 | a store followed by the barrier its macro asks for, forward or backward, keeps the invariant in every state |
| `GcMutator.SetThreadKeepsInv` | lua/lgc.c:256-274 | any change to a stack without a barrier keeps the invariant |
| `GcMutator.LinkKeepsInv` | lua/lgc.c:682-688 | a new object at the head of the root list keeps the invariant, during a sweep too |
| `GcMutator.LinkAtKeepsInv` | lua/lstring.c:96-110 | a new userdata behind the main thread keeps the invariant |
| `GcMutator.LinkStringKeepsInv` | lua/lstring.c:50-72 | a new string in its chain keeps the invariant |
| `GcMutator.ReviveKeepsInv` | lua/lstring.c:86-90 | a dead string that is found again is revived, and the invariant is kept |
| `GcOpen.FindUpvalKeepsInv` | lua/lfunc.c:53-79 | finding, reviving or opening the upvalue of a stack slot keeps the invariant, and the upvalue found may be used; which one it is is stated by GcEffects.FindUpvalIs |
| `GcFull.StepsEnd` | lua/lgc.c:554-603 | every step except the one that starts a collection decreases a rank, so collections end |
| `GcFull.FullGc` | lua/lgc.c:632-655 | a full collection ends in the pause state with the invariant kept |
| `GcExact.AtomicExact` | lua/lgc.c:523-551 | if only reachable objects were marked, the atomic step condemns exactly the unreachable objects that are not fixed |
| `GcExact.FullGcIsExact` | lua/lgc.c:632-655 | after a full collection the heap holds exactly what was reachable or fixed before |
| `GcRun.InitialInv` | lua/lstate.c:69-83 | the initial state satisfies the invariant |
| `GcRun.ApplyKeepsInv` | lua/lgc.c:554-707 | every step of the program or the collector keeps the invariant |
| `GcRun.ApplyKeepsReachable` | lua/lgc.c:405-426 | no step frees an object the program can reach |
| `GcRun.CollectorIsInvisible` | lua/lgc.c:554-603 | a collector step changes neither what is reachable nor what reachable objects refer to |
| `GcRun.RunKeepsInv` | lua/lgc.c:554-707 | the invariant holds at every moment of every run |
| `GcRun.RunIsSafe` | lua/lgc.c:405-426 | in every run, whatever is reachable is in the heap, not dead, and not freed by the next step |
| `GcOrder.StepTidies` | lua/lgc.c:554-603 | a single step may free objects and close upvalues, but what is left holds what it held, what stays open is where it was, and the lists of open upvalues stay in order |
| `GcOrder.FullGcTidies` | lua/lgc.c:632-655 | so does a full collection |
| `GcEffects.FindUpvalIs` | lua/lfunc.c:53-79 | the upvalue returned is open at the slot asked for: the one that was open there, if there was one, and otherwise the new object; no other object changes, and the list stays in order |
| `GcEffects.ApplyIs` | lua/lgc.c:554-707 | every step of the program or the collector changes in the heap exactly what is stated for it, and keeps the lists of open upvalues in order |
| `GcEffects.RunIsExact` | lua/lgc.c:554-707 | the same for every step of every run |
| `GcFixed.RunSettles` | lua/lgc.c:554-707 | every step of every run leaves the roots and the fixed objects as they were, but for a change of the basic metatables, a switch of threads and luaS_fix |
| `GcFixed.RunFixes` | lua/lgc.c:405-426 | at every moment of every run exactly those objects are fixed, and in the heap whether reachable or not, that were fixed at the start or for which luaS_fix has been called |
| `GcEffects.RunSlotsDescend` | lua/lfunc.c:53-79 | at every moment of every run the slots along the list of open upvalues of a thread strictly decrease |
| `GcEffects.OnePerSlot` | lua/lfunc.c:53-79 | at every moment of every run no slot has two open upvalues |
| `GcView.RunIsTricolour` | lua/lgc.h:65-97 | in every propagate state of every run no black object refers to a white one, and every gray table, closure, prototype or thread is on the gray or grayagain list |
| `GcView.FullGcIsInvisible` | lua/lgc.c:632-655 | a full collection, too, changes neither what is reachable nor what reachable objects refer to |
| `GcCollector.Collector.constructor` | lua/lstate.c:69-83 | a fresh collector is in the initial state and satisfies the invariant |
| `GcCollector.Collector.ReallyMarkObject` | lua/lgc.c:69-112 | refines GcMark.ReallyMarkObject in place |
| `GcCollector.Collector.MarkAll` | lua/lgc.c:158-274 | refines the marking of a list of references in place |
| `GcCollector.Collector.PropagateMark` | lua/lgc.c:277-320 | refines one traversal in place |
| `GcCollector.Collector.PropagateAll` | lua/lgc.c:323-325 | refines GcTri.PropagateAll by its loop |
| `GcCollector.Collector.RemarkUpvals` | lua/lgc.c:513-520 | refines GcTri.RemarkUpvals by its loop |
| `GcCollector.Collector.MarkRoot` | lua/lgc.c:499-510 | refines the start of a collection |
| `GcCollector.Collector.Atomic` | lua/lgc.c:523-551 | refines the atomic step |
| `GcCollector.Collector.SweepWholeList` | lua/lgc.c:405-426 | refines the sweep of a list by its loop; the heap is restricted to the survivors |
| `GcCollector.Collector.SweepStrings` | lua/lgc.c:570-578 | refines the string-sweep step |
| `GcCollector.Collector.LinkUpval` | lua/lgc.c:691-707 | links a closed upvalue and gives it the colour of its state |
| `GcCollector.Collector.FindUpval` | lua/lfunc.c:53-79 | refines GcOpen.FindUpval by its loop over the list |
| `GcCollector.Collector.NewUpval` | lua/lfunc.c:68-78 | refines the making of a new upvalue, linked behind the higher ones |
| `GcCollector.Collector.CloseUpvals` | lua/lfunc.c:96-112 | refines GcUpval.CloseFrom by its loop |
| `GcCollector.Collector.SweepList` | lua/lgc.c:405-426 | refines the sweep of the root list by its loop |
| `GcCollector.Collector.SingleStep` | lua/lgc.c:554-603 | refines singlestep and keeps the invariant |
| `GcCollector.Collector.FullGc` | lua/lgc.c:632-655 | refines luaC_fullgc; the heap left is exactly what was reachable or fixed |
| `GcCollector.Collector.BarrierBack` | lua/lgc.c:671-679 | refines the backward barrier; the invariant is kept by the store and its barrier together, see WriteField |
| `GcCollector.Collector.BarrierForward` | lua/lgc.c:658-668 | refines the forward barrier; the invariant is kept by the store and its barrier together, see WriteField |
| `GcCollector.Collector.WriteField` | lua/lgc.h:86-97 | a store into an object, with the barrier its macro asks for, takes a state of the invariant to a state of the invariant, whatever the phase |
| `GcCollector.Collector.Link` | lua/lgc.c:682-688 | refines luaC_link for an address not in use, and keeps the invariant |
| `ShmRing.PutWord` | interprocess/shmq.c:20-23 | a length written to the ring reads back as it was |
| `ShmRingProof.ProduceKeepsInv` | interprocess/shmq.c:145-236 | every producer access keeps the invariant: layout, wrap point, margin, bounds and no fault; which pushes succeed is stated by ShmRingRuns.PushDecides |
| `ShmRingProof.ConsumeKeepsInv` | interprocess/shmq.c:121-185 | every consumer access keeps the invariant, and the length assertion never fails |
| `ShmRingRuns.RunKeepsInv` | interprocess/shmq.c:40-236 | the invariant holds at every moment of every interleaving, from the state shm_cq_create leaves |
| `ShmRingRuns.RingIsFifo` | interprocess/shmq.c:121-236 | what was popped is a prefix of what was pushed, byte for byte; no fault, that is no access outside the mapping, failed assertion or overflow |
| `ShmRingRuns.HandedOutBlockIsIntact` | interprocess/shmq.c:137-142 | until the next pop begins, the block handed out keeps its bytes |
| `ShmRingRuns.EmptyPopIsRight` | interprocess/shmq.c:121-135 | a pop finds the ring empty only when everything pushed has been popped |
| `ShmRingRuns.IdlePopReturnsOldest` | interprocess/shmq.c:121-143 | at every moment of every run at which no pop is under way, an undisturbed pop returns the oldest payload not popped, or 0 exactly when there is none |
| `ShmRingRuns.RingNeverWedges` | interprocess/shmq.c:121-236 | at every moment of every run, an empty idle ring takes a legal payload at once, or after one pop that returns 0 |
| `ShmRingRuns.PushDecides` | interprocess/shmq.c:145-236 | wherever the consumer stands, a push undisturbed by it succeeds if and only if the block fits behind the tail and does not run into the consumer, or the consumer has left the base and there is room there; a refused one leaves the tail where it was, or at the base |
| `ShmRingRuns.PushIsDecided` | interprocess/shmq.c:145-236 | the same at every moment of every run at which no push is under way, in terms of head, tail and size; a refused push adds nothing |
| `ShmRingRuns.GivesUpAfterTen` | interprocess/shmq.c:207-236 | in every interleaving a push gives up only after ten looks, one after the other, at which the base had not been left, or there was no room |
| `TableNodes.BehindShrinks` | lua/ltable.c:399-429 | every step along a chain has fewer places behind it, so every walk ends |
| `TableInsert.PlaceHomeHomes` | lua/ltable.c:399-429 | when a key is put into its free or valueless main position, every key still lies behind its main position, whose occupant is at home |
| `TableInsert.PlaceHomeValues` | lua/ltable.c:399-429 | then the key is stored, and every other key keeps its value |
| `TableInsert.MoveOutHomes` | lua/ltable.c:409-417 | when the colliding node is moved to the free node, every key still lies behind its main position |
| `TableInsert.MoveOutValues` | lua/ltable.c:409-417 | then the new key is in its main position while every other key keeps its value |
| `TableInsert.AppendHomes` | lua/ltable.c:418-423 | when a key is put behind an occupant that is at home, every key still lies behind its main position |
| `TableInsert.AppendValues` | lua/ltable.c:418-423 | then the key is stored while every other key keeps its value |
| `TableStore.AppendLiveFirst` | lua/ltable.c:137-159 | a new key comes before every dead copy of it, so findindex meets it first |
| `TableSizes.Log2` | lua/lobject.c:54-69 | luaO_log2 is the integer logarithm, -1 for 0 |
| `TableSizes.CountInt` | lua/ltable.c:211-219 | a key is counted exactly when it is an integer in 1..2^26, in the counter of its interval |
| `TableSizes.NumUseArray` | lua/ltable.c:222-244 | the counters hold exactly the used slots among the first 2^26 |
| `TableSizes.NumUseHash` | lua/ltable.c:247-260 | the counters gain the integer keys of the hash part, and all its values are counted |
| `TableSizes.ComputeSizes` | lua/ltable.c:189-208 | n is the largest power of two with more than n/2 of 1..n in use, na is how many of them are; the counters are never read out of bounds |
| `TableStore.CountedAre` | lua/ltable.c:333-349 | the integers rehash counts are those under which the table has a value, and the new key |
| `TableStore.OptimalForTable` | lua/ltable.c:189-208 | the counts computesizes compares are numbers of keys in use |
| `TableStore.SizeSuffices` | lua/ltable.c:333-349 | the hash size rehash asks for is exactly the number of elements, the new one included, that stay out of the array part |
| `TableStore.AskedIsNeeded` | lua/ltable.c:333-349 | for an array part of any size: rehash asks for as many nodes too few as slots beyond 2^26 are in use, and so for exactly what is needed if and only if none is |
| `TableStore.RoundingSuffices` | lua/ltable.c:272-294 | the nodes that setnodevector makes, a power of two, hold everything if and only if it rounds up by at least the number of slots in use beyond 2^26 |
| `TableStore.AskedTooLittle` | lua/ltable.c:222-244 | a table whose only element is in the slot 2^26 + 1, and a new key that is no array index: one node is asked for and made, two are needed |
| `TableCases.MovingKeyLeavesRoom` | lua/ltable.c:333-349 | a key of the hash part that is to move into the array part makes rehash ask for no more nodes than the hash part has |
| `TableCases.OverflowKeepsContents` | lua/ltable.c:297-324 | when rehash asks for more than 2^26 nodes, no key was to move into the array part that has grown already: the contents are unchanged and every key is still found |
| `TableCases.GrowthFits` | lua/ltable.c:327-330 | what a growing array part leaves in the hash part always fits into it |
| `TableCases.FewKeys` | lua/ltable.c:532-553 | a table in which 1..m are in use has at least m places, so the linear search ends |
| `LuaTables.LuaTable.FindNode` | lua/ltable.c:435-491 | the walk along the chain finds the node of a key exactly when the key is stored |
| `LuaTables.LuaTable.Get` | lua/ltable.c:469-491 | returns the value the map has under the key |
| `LuaTables.LuaTable.GetAny` | lua/ltable.c:469-491 | the same for any key; nothing is stored under nil or NaN |
| `LuaTables.LuaTable.Presize` | lua/ltable.c:358-371 | a new table has the sizes asked for, of any array size, holds nothing, and fails exactly when more than 2^26 nodes are asked for |
| `LuaTables.LuaTable.GetFreePos` | lua/ltable.c:382-388 | returns a free node with none above it, or -1 only when there is none |
| `LuaTables.LuaTable.FindPrevious` | lua/ltable.c:409-413 | the walk to the predecessor of a node that is away from home ends at it |
| `LuaTables.LuaTable.NewKey` | lua/ltable.c:399-429 | the contents and the structure are kept, also on overflow; the key gets a slot, unless the table overflows, which needs a crowded one; with room no rehash happens |
| `LuaTables.LuaTable.Set` | lua/ltable.c:494-517 | the same for any key; for a key already stored nothing moves |
| `LuaTables.LuaTable.Store` | lua/ltable.c:297-324 | assigning through a slot changes the value of exactly that key, and no key, link or place |
| `LuaTables.LuaTable.SetNodeVector` | lua/ltable.c:272-294 | a vector of free nodes, the smallest power of two that is at least the size asked for, or the overflow error exactly when more than 2^26 are asked for |
| `LuaTables.LuaTable.Resize` | lua/ltable.c:297-324 | every element is re-inserted without a nested rehash, the contents are kept, and the promised room is left |
| `LuaTables.LuaTable.Rehash` | lua/ltable.c:333-349 | the contents are kept, also on overflow; otherwise the array part has the optimal size, and there is a place for the new key |
| `LuaTables.LuaTable.ResizeArray` | lua/ltable.c:327-330 | resizing the array part keeps the contents and cannot overflow, if what leaves it fits into the hash part |
| `LuaTables.LuaTable.Put` | lua/ltable.c:494-505 | an assignment changes exactly one key of the map; nil and NaN keys are refused; an overflow, possible in crowded tables only, changes nothing; for a key already stored, whatever its slot, no node and no place moves |
| `LuaTables.LuaTable.Perform` | lua/ltable.c:399-529 | for any sequence of assignments, reads and collector steps every read returns the value last assigned; assignments that overflow, in crowded tables only, change nothing, and the program goes on |
| `LuaTables.LuaTable.RemoveEntry` | lua/lgc.c:62-66 | declaring the key of an empty entry dead keeps the contents and the structure |
| `LuaTables.LuaTable.FindIndex` | lua/ltable.c:137-159 | the place of the first live or dead copy of the key on its chain, or the error exactly when there is none |
| `LuaTables.LuaTable.Next` | lua/ltable.c:162-179 | the first entry with a value after the place of the key, with its key and value |
| `LuaTables.LuaTable.Traverse` | lua/ltable.c:162-179 | a loop over next from nil, during which fields are assigned or cleared and keys of cleared entries collected: it ends, returns no key twice, and returns every key that had a value and is not cleared, with its value if it was not assigned |
| `LuaTables.LuaTable.GetN` | lua/ltable.c:560-576 | a boundary: an index in use, or 0, whose successor is not in use |
| `LuaTables.LuaTable.UnboundSearch` | lua/ltable.c:532-553 | finds a boundary in the hash part |
| `TableNext.TraversalIsComplete` | lua/ltable.c:162-179 | over any sequence of tables that differ in values and dead keys only, places are returned in increasing order, in at most one call more than there are places, and every place that keeps its value is returned |
| `AcsmWords.LongestIsLongest` | tm_dirty/acsm.c:252-330 | the word a state stands for is the longest suffix of the text that begins a pattern |
| `AcsmWords.LongestStep` | tm_dirty/acsm.c:252-330 | reading a byte, only that longest word matters |
| `AcsmWords.FailStep` | tm_dirty/acsm.c:285-305 | the failure word of a longer word is reached from the failure word of its parent |
| `AcsmWords.MissingStep` | tm_dirty/acsm.c:315-322 | a missing transition is that of the failure word |
| `AcsmWords.BestFromFail` | tm_dirty/acsm.c:305-314 | the longest pattern at the end of a word is the word itself, or that of its failure word |
| `AcsmBfs.ShallowDone` | tm_dirty/acsm.c:252-330 | when a state is dequeued all shallower states are complete |
| `AcsmBfs.FailTransition` | tm_dirty/acsm.c:285-305 | the transition of the failure state exists at once, and leads to a state that is settled |
| `AcsmBfs.RunIsLongest` | tm_dirty/acsm.c:462-515 | every text leads to the state of its longest suffix that begins a pattern, and that state names the longest pattern the text ends with, -1 if none |
| `AcsmMachine.Acsm.AddPattern` | tm_dirty/acsm.c:382-402 | at most 255 bytes of the pattern are stored, filtered; empty ones are ignored, more than 81920 refused |
| `AcsmMachine.Acsm.AddMatchListEntry` | tm_dirty/acsm.c:202-209 | the longer pattern wins, the earlier one among equals |
| `AcsmMachine.Acsm.AddPatternStates` | tm_dirty/acsm.c:214-246 | the trie of one more pattern; the states never run out |
| `AcsmMachine.Acsm.EnqueueFirst` | tm_dirty/acsm.c:264-271 | the children of state 0 are queued and settled |
| `AcsmMachine.Acsm.CompleteState` | tm_dirty/acsm.c:274-323 | the row of the dequeued state is completed and its children are settled |
| `AcsmMachine.Acsm.BuildDfa` | tm_dirty/acsm.c:252-330 | ends with the automaton of the patterns |
| `AcsmMachine.Acsm.Compile` | tm_dirty/acsm.c:407-454 | from any table contents: fails exactly when more than MAX_STATE states are needed, and otherwise builds the automaton |
| `AcsmSearch.Scan` | tm_dirty/acsm.c:485-545 | a round finds the longest pattern at the earliest end in its projection, and nothing only when no pattern is a substring |
| `AcsmSearch.Search` | tm_dirty/acsm.c:462-548 | 3, 1, 2 or 0, exactly by which of the filtered text, its letters and its non-letters first contains a pattern; -1 exactly for texts that are too long |
| `AcsmSearch.FirstDirtyWord` | tm_dirty/acsm.c:553-622 | the same verdict, with the longest pattern at the earliest end |
| `AcsmPoints.ProjectChar` | tm_dirty/acsm.c:523-545 | each round reads a character as a whole or not at all, and its code point decides |
| `AcsmPoints.SearchReads` | tm_dirty/acsm.c:462-548 | of each character of the text itself a round reads the capital of a letter of either case and width, the digits 1 to 9 of either width, and what is beyond ASCII and not dropped as it is, each in the rounds meant for it |
| `AcsmStars.CoveredStep` | tm_dirty/acsm.c:666-689 | the longest pattern that ends at a place covers what all patterns that end there cover |
| `AcsmStars.StarBack` | tm_dirty/acsm.c:679-686 | the backward loops stay inside the buffer, over starred bytes too, and star exactly what the round stars among the bytes they pass until n are counted, padding included |
| `AcsmLetters.LetterRead` | tm_dirty/acsm.c:693-727 | in the second round, a match that is not blocked leaves exactly the letters of all occurrences so far starred, and their padding |
| `AcsmLetters.BlockedLeaves` | tm_dirty/acsm.c:693-727 | a blocked match, one with more starred padding on the way back to one of its letters than letters before it, leaves that letter as it was |
| `AcsmReplace.NeverBlocked` | tm_dirty/acsm.c:693-727 | without padding no match is blocked |
| `AcsmReplace.SoundStep` | tm_dirty/acsm.c:662-752 | whatever the padding, a match stars only bytes in the stretch of an occurrence |
| `AcsmReplace.WholeStep` | tm_dirty/acsm.c:662-690 | whatever the padding, the first round has starred every occurrence in the text that it has passed, and has found a match exactly when one has ended |
| `AcsmReplace.MarkRound` | tm_dirty/acsm.c:662-752 | for every text: found exactly when a pattern occurs in the projection of the round; stars only in stretches of occurrences; the first and third round star every occurrence, the second if no match is blocked, and not if the first blocked match is the last one |
| `AcsmReplace.PatternReplace` | tm_dirty/acsm.c:633-760 | for every text that is not too long: the flag says exactly whether a pattern occurs in the padded text or its two projections; every byte of such an occurrence is starred if no match of the second round is blocked, and in the other rounds always; without padding nothing else is, and with padding nothing outside the stretches of occurrences |
| `AcsmWide.LeavesLetter` | tm_dirty/acsm.c:693-727 | the patterns AB and XABC and the text XABC in full-width letters: found dirty, and one letter of the occurrence is left |
| `AcsmVerdicts.VerdictsCompared` | tm_dirty/acsm.c:462-760 | verdict 1 of the search implies the flag of the replacement, verdict 2 does on texts without digits, verdict 3 on texts without padding; and a text that the search finds clean is starred exactly when the third round of the replacement finds something, which takes a digit |
| `AcsmVerdicts.VerdictsAgree` | tm_dirty/acsm.c:462-760 | search and replacement agree on a text for all patterns if and only if everything one of them reads is a substring of something the other reads |
| `AcsmVerdicts.PlainIsSame` | tm_dirty/acsm.c:462-760 | on texts without padding and digits they agree |
| `AcsmVerdicts.FoundNotStarred` | tm_dirty/acsm.c:485-545 | the pattern A1 and the text A.1: verdict 3, flag 0, nothing changes |
| `AcsmVerdicts.StarredNotFound` | tm_dirty/acsm.c:728-752 | a pattern of two multi-byte bytes and a text with a digit between them: verdict 0, flag 1 |
| `Utf8Punc.HalfOfFull` | tm_dirty/utf8_punc.c:35-70 | converting to full width and back is the identity on 0x20..0x7E, and only these have a full width |
| `Utf8Punc.StringFilter` | tm_dirty/utf8_punc.c:79-177 | computes the filtered text, which Utf8Points.FilterIs describes, and the final *m is its length |
| `Utf8Punc.FilterKeeps` | tm_dirty/utf8_punc.c:79-177 | only capital letters, the digits 1 to 9 and bytes of multi-byte characters are left |
| `Utf8Punc.FilterOneChar` | tm_dirty/utf8_punc.c:79-177 | a well-formed character is dropped, converted or kept as a whole, whatever follows |
| `Utf8Points.CodePointOnce` | tm_dirty/utf8_punc.c:79-177 | no two well-formed characters encode the same code point |
| `Utf8Points.CharIs` | tm_dirty/utf8_punc.c:79-177 | by its code point a character is dropped (ASCII other than letters and 1 to 9, punctuation, and their full-width forms), converted (full-width forms to ASCII, small letters to capitals) or kept |
| `Utf8Points.FilterIs` | tm_dirty/utf8_punc.c:79-177 | for every text, ill formed or not: the first character is treated by its code point, and a byte with which no character begins is kept; then comes the rest, filtered |
| `Utf8Points.LeftSame` | tm_dirty/utf8_punc.c:79-177 | two characters leave the same behind if and only if they differ in case or width only, or both are dropped |
| `Utf8Points.AlikeFiltered` | tm_dirty/utf8_punc.c:79-177 | texts that differ in case or width only are filtered alike |
| `Utf8Punc.FilterConcat` | tm_dirty/utf8_punc.c:79-177 | filtering distributes over concatenation after well-formed text |
| `Utf8Punc.FilterWellFormed` | tm_dirty/utf8_punc.c:79-177 | well-formed text stays well formed, and filtering is idempotent on it |
| `Utf8Punc.FilterNotIdempotent` | tm_dirty/utf8_punc.c:79-177 | a concrete ill-formed text on which filtering twice differs |
| `Utf8Punc.StringReplace` | tm_dirty/utf8_punc.c:186-281 | computes the padded text |
| `Utf8Punc.ReplaceIsFilter` | tm_dirty/utf8_punc.c:186-281 | the padded text has the length of the original, no star, and is the filtered text once its padding is removed |
| `Utf8Points.ReplaceIs` | tm_dirty/utf8_punc.c:186-281 | for every text: a character that is dropped becomes as many '+', one that is converted is padded with '-' to its length, any other stays |
| `Brackets.PairIsTop` | tm_dirty/utf8_punc.c:287-329 | the stack pairs exactly the brackets between which everything balances |
| `Brackets.ReplaceInBrackets` | tm_dirty/utf8_punc.c:287-329 | up to the 65536th bracket open at once exactly the bytes inside a pair of brackets are blanked; from there on the buffer is left as it was |
| `TimerLists.PlacedRight` | timer.c:238-251 | add_timer puts a timer into a list other than the first without cause if and only if its difference wraps |
| `TimerLists.WrapsWhen` | timer.c:238-251 | a difference wraps if and only if the timer expired more than 2^31 seconds ago and the low 32 bits of the difference stand for a number above 4 and below 2^31 |
| `TimerLists.OverlaidAre` | timer.c:262-268 | when a timer joins a list, exactly those timers get a recorded minimum that is too late for them which expire before it, if the list had no minimum and the timer is not near |
| `TimerWheel.DueWhenAdded` | timer.c:238-251 | a timer that is due when it is added, whatever its expiry, is called in the first scan if and only if its difference does not wrap, and otherwise in the second one |
| `TimerWheel.Forgotten` | timer.c:262-268 | a wrapped timer with expiry 0 and another timer that joins its list before the next scan: two scans call neither |
| `TimerWheel.Endless` | timer.c:138-152 | two due timers, and functions that each add one due timer: for every n a scan with at least n calls |
| `TimerWheel.Wheel.AddTimer` | timer.c:238-251 | for any expiry, the timer is in the first list wide enough for the truncated difference, as a stray when the difference wraps; exactly the timers of its list that its minimum is too late for are lost, none if all minima are known; the wheel stays sound |
| `TimerWheel.Wheel.ModExpire` | timer.c:162-177 | the timer is re-timed and goes to the end of the first list wide enough, all other timers keep their places, and it is not lost any more; nothing happens when its expiry was 0 |
| `TimerWheel.Wheel.Remove` | timer.h:208-221 | the timer has no function any more, and nothing else changes |
| `TimerWheel.Wheel.Refresh` | timer.c:315-329 | every timer gets the function of its type, none when it has no type |
| `TimerWheel.Wheel.FindMinIdx` | timer.c:253-260 | the first list wide enough, but none above the given one |
| `TimerWheel.Wheel.React` | timer.c:138-152 | what a called function adds is there under the next identities, what it removes has no function any more, and no other timer changes |
| `TimerWheel.Wheel.CallFunction` | timer.c:144-150 | the timer called is freed if and only if its function returns zero |
| `TimerWheel.Wheel.ScanTimerList` | timer.c:111-136 | no live timer goes missing; every timer of the list ends in the first list wide enough for it, at its end and in the order of the old list; none of the list is lost any more, and all lists up to this one are timely for the current time |
| `TimerWheel.Wheel.RunDue` | timer.c:138-152 | every due timer of the first list is called unless a function called in this scan removes it; none early, none twice, none lost; the calls come in the order of the list, new timers last and in the order they were added; a timer whose function returns non-zero is live afterwards with the same expiry, unless one called removes it, and one whose function returns zero is freed; what the functions add is there, and what they remove has no function; when at least two timers are due and every function adds due timers, there are as many calls as functions to come |
| `TimerWheel.Wheel.ScanSeconds` | timer.c:138-160 | a live timer that is due, is neither a stray nor lost, and was due by the second after the last scan, is called in this one; what becomes of the timers called is as in RunDue; after it there are no strays, and all minima are known |
| `TimerWheel.Wheel.HandleTimer` | timer.h:117-130 | scans exactly when the second has changed |
| `TimerWheel.Wheel.Run` | timer.c:111-177 | any run of ticks, additions, removals, re-timings and re-bindings keeps the wheel sound; every scan is as stated; every timer, from any moment at which it is live and for as long as it is left alone and not lost, is never called early and is called when due; one whose function returns non-zero is called in the next scan too as long as it is left alone, and one whose function returns zero never again; and no timer is ever lost unless a timer with expiry 0 whose difference wraps is added |
| `TimerRuns.CalledInTime` | timer.c:138-160 | with scans a second apart a timer is called in the first scan at its time or later, wrapped timers excepted in the very first scan, and after a jump at the latest in the next scan |
| `TimerRuns.CalledOn` | timer.c:138-152 | a timer that is left alone is called in every scan after one in which its function returned non-zero, until the function returns zero |
| `ChunkFormat.FromLEOfLE` | lua/ldump.c:39-59 | a number written in n bytes reads back |
| `ChunkLayout.StringLies` | lua/ldump.c:61-74 | a string in a chunk: its size and the final zero counted in eight bytes, its bytes, the zero; the null pointer is a size 0 |
| `ChunkLayout.ConstLies` | lua/ldump.c:85-109 | a constant in a chunk: its type in one byte, 0, 1, 3 or 4, then its value |
| `ChunkLayout.LocVarLies` | lua/ldump.c:116-123 | a local variable in a chunk: its name, then the two ends of its scope in four bytes each |
| `ChunkLayout.FunctionLies` | lua/ldump.c:129-141 | where the fields and lists of a function lie: source, lines, the four bytes, code, constants, inner functions, debug data |
| `ChunkLayout.CodeLies` | lua/ldump.c:55-59 | instruction i is the four-byte word at 16 + 4i behind the source, the lowest byte first |
| `ChunkLayout.InnerLies` | lua/ldump.c:107-109 | each inner function has the same layout at its place in the list |
| `ChunkLayout.ChunkLies` | lua/ldump.c:143-164 | a chunk is the twelve bytes of the header, literally, and the main function |
| `ChunkRoundTrip.FunctionTrip` | lua/lundump.c:160-177 | loading a dumped function gives its normal form exactly when no checked integer is negative and the checker accepts every function of the tree; otherwise it fails |
| `ChunkRoundTrip.RoundTrip` | lua/ldump.c:129-164 | luaU_undump after luaU_dump, header included: the same for whole chunks |
| `ChunkRoundTrip.NormIsSame` | lua/lundump.c:160-177 | without stripping, exactly the trees in which every function has a source come back unchanged |
| `ChunkRoundTrip.StrippedIs` | lua/ldump.c:111-141 | a stripped function comes back without source and debug data, and with the same code and constants |
| `ChunkForms.UndumpAccepts` | lua/lundump.c:160-205 | on any bytes: luaU_undump gives f and leaves the rest if and only if the bytes begin with the header and a function in the form of a chunk that is f, accepted by the checker in all its functions |
| `ChunkForms.FunctionSound` | lua/lundump.c:160-177 | whatever is loaded as a function was written in the form of one |
| `ChunkForms.FunctionComplete` | lua/lundump.c:160-177 | whatever is written in the form of a function and accepted is loaded as that function, whatever follows |
| `ChunkStreams.Zio.Fill` | lua/lzio.c:21-32 | takes the next byte of the stream, -1 exactly at its end |
| `ChunkStreams.Zio.Lookahead` | lua/lzio.c:35-45 | shows the next byte and consumes nothing |
| `ChunkStreams.Zio.Read` | lua/lzio.c:58-71 | reads the next bytes of the stream however they are split into blocks, and reports exactly how many are missing |
| `ChunkStreams.Loader.Block` | lua/lundump.c:47-51 | refines loading a block from everything still in the stream |
| `ChunkStreams.Loader.StringOf` | lua/lundump.c:75-87 | refines loading a string |
| `ChunkStreams.Loader.Code` | lua/lundump.c:89-95 | reading the instructions as one block is reading them one by one |
| `ChunkStreams.Loader.Constants` | lua/lundump.c:99-134 | refines loading the constants, with the error for unknown types |
| `ChunkStreams.Loader.Debug` | lua/lundump.c:136-158 | refines loading the debug data |
| `ChunkStreams.Loader.Function` | lua/lundump.c:160-177 | refines loading a function with all inner functions, and ends on every stream |
| `ChunkStreams.Loader.UndumpAll` | lua/lundump.c:191-205 | what is loaded depends on the bytes alone, not on how they are split into blocks |
| `ChunkDump.Dumper.Block` | lua/ldump.c:29-37 | the writer is called only while nothing has failed |
| `ChunkDump.Dumper.Function` | lua/ldump.c:129-141 | writes the bytes of the function up to the first failure of the writer |
| `ChunkDump.Dumper.DumpAll` | lua/ldump.c:153-164 | status 0 means that the whole chunk was written; otherwise a beginning of it was, and the status is the writer's |
| `ChunkDump.Transport` | lua/lundump.c:47-205 | a chunk delivered in any blocks loads as the normal form of the function dumped, exactly when it is acceptable |
| `Des.PermOpTwice` | crypt/qdes.c:16-17 | PERM_OP is an involution for the shifts 1, 2, 4, 8 and 16 and every mask that survives the shift |
| `DesBits.PermOpBits` | crypt/qdes.c:16-17 | PERM_OP exchanges bit i + n of the first word with bit i of the second for every bit i of the mask, and no other bits |
| `DesBits.InitialIs` | crypt/qdes.c:88-107 | after IP each of the 64 places holds the bit of the block that the table of FIPS PUB 46-3 names |
| `DesBits.TheTable` | crypt/qdes.c:88-107 | that table, written out row by row |
| `DesBits.InitialOnce` | crypt/qdes.c:88-107 | a block has one initial permutation, and no two blocks have the same |
| `Des.FinalAfterInitial` | crypt/qdes.c:88-107 | FP undoes IP |
| `Des.InitialAfterFinal` | crypt/qdes.c:88-107 | IP undoes FP |
| `Des.RoundsBack` | crypt/qdes.c:565-585 | the rounds in the opposite key order undo the rounds one by one, for any round function and schedule |
| `Des.RoundsForth` | crypt/qdes.c:565-585 | and the other way round |
| `Des.BlockBack` | crypt/qdes.c:537-595 | deciphering undoes enciphering of a block, and the other way round |
| `Des.LoadSave` | crypt/qdes.c:22-48 | eight bytes and two words convert into each other without loss |
| `Des.EcbNBack` | crypt/qdes.c:438-466 | des_decrypt_n undoes des_encrypt_n for every number of blocks, and the other way round |
| `Des.DoEcb` | crypt/qdes.c:537-595 | the loops replace the two words by their block function, which DesStandard.EcbIs describes |
| `Des.EcbBlocks` | crypt/qdes.c:438-466 | the target holds the n blocks enciphered or deciphered, also when it is the source; nothing behind them changes |
| `DesStandard.EcbIs` | crypt/qdes.c:537-595 | the initial permutation of the block that comes out is that of the block that went in after sixteen rounds (L, R) -> (R, L ^ g(R)), the keys in order or for deciphering in the opposite order, with its halves exchanged |
| `DesStandard.EcbNIs` | crypt/qdes.c:438-466 | so it is for every block of the text, each on its own |

## Left out

- Weak tables, `__gc` finalisers, resizing of stacks and of the string table, the pacing counters and `luaC_freeall` of the collector; allocation failure everywhere.
- The mark bits are kept in a map beside the heap, and the collector's lists are sequences; a dead thread is unlinked after its upvalues are closed rather than before, which no other code can see.
- GcCollector.Collector: the mutator's operations other than the barriers, luaC_link and luaF_findupval are modelled on values only (`GcMutator`), not again as methods.
- Number hashing and metamethods of tables: keys are integers or opaque, and the hash is any function.
- LuaTables.LuaTable.Put: a new key in a table in which a slot beyond 2^26 is in use, since re-insertion may then rehash again; `TableStore.RoundingSuffices` says when it does.
- LuaTables.LuaTable.Perform: array parts of more than 2^26 slots, which rehash never makes, since a program may put such slots to use.
- LuaTables.LuaTable.ResizeArray: sizes above 2^26, and shrinking to a size at which the rest does not fit into the hash part, are not modelled; luaH_resizearray is called to grow the array part only.
- Weak memory ordering in the ring: accesses are sequentially consistent, and the waits of a retry become re-reads. `shm_open` and `mmap` are not modelled.
- The overflow checks of malloc in the matcher's queue; its queue is a sequence. Loading of word lists, the network update and the mapping shared between processes.
- The locale of toupper: the C locale is taken.
- TimerWheel.Wheel.Run: nothing is promised to a timer while it is lost; `TimerWheel.Forgotten` shows why.
- TimerWheel.Wheel.RunDue: what the functions do is a finite sequence, so a scan that never ends is covered by its beginnings (`TimerWheel.Endless`). That functions re-time no timers is an assumption: timer.h:143 forbids it for the timer whose function runs, and re-timing the next timer of the list would lead the loop of scan_seconds_timer into another list.
- The per-owner lists of timers, the search by function in add_event, and microsecond timers.
- Soundness of the bytecode checker: it is an arbitrary predicate. Interning of strings when a chunk is loaded: equal strings are equal.
- ChunkFormat.Dump: the byte sizes are those of a 64-bit little-endian machine.
- Contents of the DES tables and the key schedule: both are arbitrary. Words are 32 bits wide; in the original all values stay below 2^32.
- Source and target of the DES block loops that overlap without being equal.
- The compiler, the interpreter and the standard libraries of Lua; conf_parser, attr_api, bitmanip, dataformatter, random, time, inet, log and tlog.
