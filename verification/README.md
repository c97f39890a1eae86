# v7besm in Dafny

A model of the hard core of v7besm: a version 7 Unix kernel, a two-pass assembler and an awk for a machine
with 48-bit words, 1024-word pages and no read-only memory. Everything is checked by

    dafny verify dfyconfig.toml

Code that updates structures in place is a class or an array method here, written branch by branch like the
C code and proved against a specification function or a stated property. What the system promises over whole
runs is proved of those specifications.

- **awk** (`Awk*.dfy`). A regular expression tree has a denotational language. `makedfa` numbers its leaves,
  computes first and follow sets with explicit stacks, and builds the table of a subset automaton that leaves
  the initial positions out of its states. `match` then finds exactly the strings in which a word of the
  language occurs. What first and follow sets mean for the language is in `AwkRegexp`, and why the initial
  positions may be left out in `AwkSubset`.
- **Process memory** (`ResourceMap`, `Space`, `Pages`, `Proc*`, `User*` but `UserCopy`, `Kernel`).
  Free maps, process images, shared texts and the one live u-area with its home `uhome`. The invariant `Good`
  says that core and swap space are shared out among the free map, the images and the texts with nothing lost
  and nothing used twice, that text counts count, that the u-area's home is the image of the process it belongs
  to, that every process waiting has its u-area saved in its image, and that texts are where they should be.
  It holds after every sequence of switches, forks, expansions, swaps, exits, waits, text operations and stores.
  `Machine` is the imperative kernel code, proved to do those steps.
- **Scheduler** (`Chains`, `Sched`, `WakeupClash`, `WakeupWalk`, `RunQueue`). The run queue and the hashed
  sleep queues, which share one link field per process. `Valid(off)` says that every process not in `off` is on
  exactly the queue its state and channel put it on.
- **File storage** (`Blocks`, `FreeList`, `File*`, `Volume`). The free list with its chain blocks, the inode
  address trees with lazy allocation, and byte input and output on top. `Inv(s, limbo)` says that every block
  from `isize` to `fsize` is in exactly one place: on the free list, at one place of one inode's tree, or in
  `limbo`, on its way from one to the other.
- **User copies** (`WordBytes`, `UserCopy`). Copies between user and kernel memory at any pair of byte phases,
  whole words at a time, through a funnel shift where the phases differ.
- **Assembler** (`Asm*.dfy`). Expressions with their segments, the pool of literals, and what pass 2's
  relocation makes of both.
- **Small structures** (`Callouts`, `CalloutRuns`, `ClockTable`; `Clists`, `CharQueues`, `CharLists`; `Pipes`,
  `PipeRuns`). The delta-encoded callout table, character queues over one pool of blocks, and pipes under any
  interleaving of readers and writers.

## Model

| member | source | states |
|---|---|---|
| AwkMakeDfa.Search | cmd/awk/b.c:76-103 | for every tree without anchors and every string without NUL, if makedfa returns then match answers 1 exactly when some substring, the empty one included, is a word of the tree's language; it fails only for a tree that is too deep, has too many leaves or needs too many states |
| AwkMakeDfa.MakeDfa | cmd/awk/b.c:76-103 | the table makedfa returns is that of the subset automaton for the tree, row by row, and is well formed |
| AwkPositions.PosSet.NotIn | cmd/awk/b.c:405-422 | finds a remembered set that equals the one being built, and says it is absent only if there is none, although it compares sizes and members above 0 only |
| AwkPositions.PosSet.Add | cmd/awk/b.c:424-436 | the list remembered is the increasing list of exactly the marked positions |
| AwkFollow.Builder.PEnter | cmd/awk/b.c:106-142 | the leaves are numbered left to right, and every node linked to its parent; it overflows only for a tree that is too deep or has too many leaves |
| AwkFollow.Builder.FirstOf | cmd/awk/b.c:268-352 | the explicit-stack walk marks exactly the first positions of the node on top of what was marked, counts the new ones, and answers 0 exactly for nodes that match the empty word |
| AwkFollow.Builder.FollowOf | cmd/awk/b.c:356-395 | the climb along parent pointers marks exactly the positions that can follow the leaf in the whole tree, FINAL among them exactly if the leaf can be last |
| AwkFollow.Builder.CFoll | cmd/awk/b.c:220-258 | every leaf gets a list of exactly its follow set, also where the list of a lower leaf with an equal set is reused |
| AwkFollow.Builder.FollowLists | cmd/awk/b.c:76-103 | what makedfa has when it calls cgotofn: numbered leaves with their nodes, and the follow list of each |
| AwkFollow.FollowSetIsFoll | cmd/awk/b.c:76-103 | in the tree makedfa wraps around the expression, the leading dot is followed by where a match may start, and every other leaf by what follows it in the expression |
| AwkDfa.NextState | cmd/awk/b.c:576-598 | the set built is exactly the positions that can follow the state's on the symbol, initial ones left out, counted once |
| AwkDfa.FindState | cmd/awk/b.c:599-612 | the set is an old state or becomes a new one, and every state stays reachable by some string; only more reachable sets than states make it fail |
| AwkDfa.CGotoFn | cmd/awk/b.c:449-644 | the table has one right row per state of the subset automaton, within the limit on states |
| AwkDfa.StartsInStateZero | cmd/awk/b.c:637-643 | without anchors the automaton starts in state 0 |
| AwkDfa.Match | cmd/awk/b.c:646-676 | the table walk, with its default to state 0 and its single-transition fast path, accepts exactly what the table accepts, and never a null string |
| AwkDfa.AutomatonDecides | cmd/awk/b.c:646-676 | a table that is right row by row accepts exactly the strings in which a word of the language occurs |
| ResourceMap.Malloc | kernel/malloc.c:16-35 | the first run that is large enough loses its first units and no other changes; 0, and nothing changed, exactly when no run is large enough |
| ResourceMap.MFree | kernel/malloc.c:41-77 | the runs become those with the units joined in, sorted and coalesced; the table keeps the slot that ends it if and only if the units touch a run or another slot is left |
| ResourceMap.NoEnd | kernel/malloc.c:64-75 | a table that mfree leaves without an end |
| ResourceMap.CutTakes | kernel/malloc.c:16-35 | exactly the granted units stop being free, and the map stays sorted and coalesced |
| ResourceMap.JoinGives | kernel/malloc.c:41-77 | exactly the units given back become free, and the map stays sorted and coalesced |
| ResourceMap.JoinUndoesCut | kernel/malloc.c:41-77 | freeing what was just granted restores the very map |
| ResourceMap.Canonical | kernel/malloc.c:41-77 | two sorted, coalesced maps with the same free units are equal, so the map is a function of what is free |
| ResourceMap.FirstFitIsLowest | kernel/malloc.c:16-35 | first fit is the lowest address at which the request fits, and finding no run means there is no such address |
| ProcSteps.FlushHitsOwnImage | kernel/text.c:37-74 | whenever uhome is set, it is the first page of the image of the process whose u-area is live, and that page is not free |
| ProcSteps.ResumeKeeps | kernel/slp.c:327-392 | a switch keeps the invariant, brings back the u-area saved for the process resumed, and leaves the outgoing one saved in its own image |
| ProcSwap.XSwapKeeps | kernel/text.c:76-129 | swapping out an image, grown or not, with its text, keeps the invariant |
| ProcSwap.SwapInKeeps | kernel/slp.c:275-307 | so does swapping one in, its text read in first if nobody in core has it |
| ProcOps.NewProcKeeps | kernel/slp.c:397-509 | fork by core copy or by swap copy keeps the invariant, and the child's saved u-area is the parent's under the child's name |
| ProcOps.MoveKeeps | kernel/slp.c:522-562 | expand's move to a larger place, which leaves the first page behind, keeps the invariant all the same, because uhome moves too |
| ProcOps.MoveCopies | kernel/slp.c:522-562 | and everything above the first page arrives |
| ProcText.XFreeKeeps | kernel/text.c:133-155 | leaving a text keeps the invariant, whether or not it was the last user or the last in core |
| ProcText.ExitKeeps | kernel/sys1.c:416-465 | exit gives back the image, leaves no home for the u-area, and keeps the invariant |
| ProcExec.XAllocKeeps | kernel/text.c:165-225 | attaching to an old or new text keeps the invariant, also when there is no core for it and the caller is swapped out |
| ProcExec.XUntextKeeps | kernel/text.c:313-331 | giving up an unused text's swap space keeps the invariant |
| ProcExec.PatchTextKeeps | kernel/sig.c:359-376 | a debugger's write to an unshared text keeps the invariant |
| ProcExec.StoreTextKeeps | kernel/utab.c:53-120 | so does a plain store by a program into its text, which no page protection prevents |
| ProcRun.StepGood | kernel/slp.c:397-562 | every step of the machine keeps the invariant |
| ProcRun.RunGood | kernel/text.c:37-74 | so does every sequence of steps: at its end uhome is unset, or it is the first page of the running process's own image and not free |
| ProcLaws.BootGood | kernel/machdep.c:56-88 | the state main leaves, with any amount of core and swap space, has the invariant |
| ProcLaws.AlwaysGood | kernel/main.c:49-123 | hence every state reachable from boot has it |
| ProcRoom.MapsBound | kernel/malloc.c:41-77 | in every good state a free map has at most one run more than there are images and texts in its space |
| ProcRoom.AlwaysRoomy | kernel/slp.c:21-22 | so after every run from boot, if at most 46 images and texts are in core and 47 on swap, the two tables of fifty slots suffice for every operation that can come next |
| ProcRoom.RoomyKeepsEnd | kernel/malloc.c:41-77 | in such a state an operation of the machine leaves both tables with an end at every point of it |
| ProcCrowd.CoreMapFills | kernel/malloc.c:64-75 | a run from boot, of 99 one-page processes of which every second exits, after which the core map fills its table |
| ProcLaws.ResumesAsSaved | kernel/slp.c:327-392 | whatever is done by others, however often the process is swapped, moved or forked from, it resumes with exactly the u-area it was saved with |
| ProcLaws.CountsCount | kernel/text.c:165-225 | after every run x_count is the number of processes attached to the text, x_ccount the number of those in core, and the text holds core exactly if that is not zero |
| ProcLaws.TextComesBack | kernel/text.c:272-286 | after every run in which nobody rewrites it, a loaded text in core that has not been stored into holds what was loaded |
| ProcLaws.ComesBackIff | kernel/text.c:272-286 | a text that leaves core and returns holds what it held when it left if and only if it was marked XWRIT or its core and swap copies were equal |
| ProcLost.LostStore | kernel/text.c:272-286 | a run from boot in which a program's store into its text is gone after a swap |
| ProcImages.StepBody | kernel/slp.c:397-562 | no step changes a page of data or stack of any process but the running one, in core or on swap |
| ProcImages.ForkBody | kernel/slp.c:397-509 | the child has a copy of the parent's data and stack, and everyone else keeps theirs |
| ProcImages.XSwapBody | kernel/text.c:76-129 | a swapped image comes to the same pages, zeros behind them if it grew, and everyone else keeps theirs |
| ProcImages.ComesBackWhole | kernel/slp.c:327-392 | over any run a process that does not run keeps its data and stack, and resumes with them |
| ProcStand.StandsRun | kernel/slp.c:327-392 | and its size, its text and its text's size |
| UserMap.Sureg | kernel/utab.c:62-120 | unpacking the packed map gives text, data and stack at their pages and nothing else, and exactly the unmapped pages are closed |
| UserMap.Pack | kernel/utab.c:104-115 | four ten-bit descriptors to a word, scattered bit by bit, with the protection bits in the even words: each page and each bit reads back |
| UserMap.Estabur | kernel/utab.c:128-146 | the sizes are taken and the map rebuilt exactly when they pass the tests; otherwise nothing changes |
| UserMap.SharedOnlyThroughText | kernel/utab.c:62-120 | two processes ready to run map a common physical page only at the same place of the same text, and no free page |
| UserMap.MappedOnce | kernel/utab.c:62-120 | no process maps a page twice |
| UserBreak.SBreak | kernel/sys1.c:571-631 | says exactly when it fails, completes, or goes on after a swap; when complete the invariant holds, the image is exactly as large as the sizes say, every page mapped before and after is the same and every page mapped only after is zero |
| UserBreak.Grow | kernel/sig.c:256-282 | the same for a stack fault, which is answered exactly for pages of the stack region above the stack that fit; the faulting page is then mapped, and zero |
| UserBreak.BreakGoesOn | kernel/sys1.c:571-631 | a process swapped out in the middle of sbreak, whatever runs meanwhile and however often it is moved, finishes with the same result when it comes back |
| UserBreak.GrowGoesOn | kernel/sig.c:256-282 | so does one swapped out in the middle of grow |
| UserBreak.SlideDown | kernel/sys1.c:611-617 | the upward copy loop, although its ranges overlap, moves the pages as they were |
| UserBreak.SlideUp | kernel/sys1.c:620-626 | so does the downward one |
| UserFit.FittedRun | kernel/utab.c:128-146 | over any run in which a process keeps its sizes, its image is exactly what its sizes say, so that it is ready to run user code whenever it is in core |
| UserFit.ResizedFitted | kernel/sys1.c:571-631 | sbreak and grow end in such a state |
| UserExec.ExecFits | kernel/sys1.c:283-346 | getxfile's estabur, xfree, expand, xalloc and last estabur, with any run of others while it is swapped out or reads, keep the invariant, and leave the process with an image and text of its new sizes if and only if the file has no text or there was a text entry for it |
| UserExec.CommitRoom | kernel/sys1.c:297-305 | once committed the process has no text and exactly the room its new sizes need, in core or out |
| UserExec.Obtained | kernel/text.c:165-225 | xalloc attaches a text of the size the file's header says, exactly if there is an entry for it, old or unused |
| UserExec.SizesStep | kernel/text.c:165-225 | as long as texts are entered with the sizes their files say, every step keeps all texts at those sizes |
| UserNoText.ExecUnfit | kernel/text.c:193-197 | a run from boot after which exec finds no entry, and leaves a process whose sizes say it has a text it does not have |
| UserFit.ForkFitted | kernel/slp.c:397-509 | a child of such a process is one |
| UserFit.BootFitted | kernel/main.c:49-123 | process 0 is one at boot |
| UserFit.NobodyElsesPages | kernel/utab.c:62-120 | so in every state of such a run two processes in core map a common page only at the same place of the same text |
| Kernel.Machine.constructor | kernel/machdep.c:56-88 | the machine starts in the boot state, which has the invariant |
| Kernel.Machine.SwitchTo | kernel/slp.c:327-392 | flushes to uhome only if set and different, loads, and moves uhome: the specified switch |
| Kernel.Machine.XccDec | kernel/text.c:272-286 | writes a marked text out and frees its core when the last user in core goes, and only then |
| Kernel.Machine.XSwap | kernel/text.c:76-129 | with or without freeing the core, of the old or the given size, does the specified swap-out, or fails without change when swap space is out |
| Kernel.Machine.SwapIn | kernel/slp.c:275-307 | does the specified swap-in, or, with no room for image and text together, gives back what it took and changes nothing |
| Kernel.Machine.XFree | kernel/text.c:133-155 | does the specified step and keeps the invariant |
| Kernel.Machine.Exit | kernel/sys1.c:416-465 | does the specified step and keeps the invariant |
| Kernel.Machine.XAlloc | kernel/text.c:165-225 | finds the text in one walk or enters it in the first unused slot, or falls back to swapping itself out: the specified step, and the invariant is kept |
| Kernel.Machine.XUntext | kernel/text.c:313-331 | does the specified step and keeps the invariant |
| Kernel.Machine.Expand | kernel/slp.c:522-562 | shrinks in place, moves, or swaps out: the specified step, and the invariant is kept |
| Kernel.Machine.SwapOut | kernel/slp.c:261-264 | sched's swap of a victim: the specified step, and the invariant is kept |
| Kernel.Machine.NewProc | kernel/slp.c:397-509 | takes the first free slot if there is one, and copies the image in core or to swap: the specified step, and the invariant is kept |
| Kernel.SwapInOrder | kernel/slp.c:275-307 | reading the text before the image or after it comes to the same |
| RunQueue.OnOneQueue | kernel/slp.c:121-140 | a process is on at most one queue; a runnable one not counted off is on the run queue, a sleeping one in the bucket of its own channel |
| RunQueue.Queues.constructor | kernel/slp.c:17-34 | with no processes and empty queues everything is in order |
| RunQueue.Queues.SetRq | kernel/slp.c:125-140 | the "proc on q" diagnostic is given exactly when the process is on the run queue, and otherwise it is put at its head |
| RunQueue.Queues.Wakeup | kernel/slp.c:92-119 | if and only if the queues do not clash, exactly the sleepers on the channel, and the swapper if it is due, become runnable, nobody else changes and every queue is in order; Clash is a condition on the bucket before the call, for both ways the walk can go wrong; the "proc on q" diagnostic is never given |
| RunQueue.Queues.SetRun | kernel/slp.c:144-164 | a waiting process wakes with all who wait with it, under the same condition; any other goes to the head of the run queue, and the swapper wakes if it waits for one that is out of core; the "proc on q" diagnostic is never given |
| RunQueue.Queues.Sleep | kernel/slp.c:42-89 | the process is at the head of the bucket of its channel and off the run queue; with a signal pending nothing changes but the priority; waking runin on the way is right if and only if there is no clash |
| RunQueue.Queues.Dispatch | kernel/slp.c:327-392 | the process taken off the run queue is in core, runnable and has the best priority of all there, and the others keep their order; none is taken only if none in core has a priority below 128 |
| RunQueue.Queues.QSwitch | kernel/slp.c:312-316 | the current process goes to the head of the run queue, and no diagnostic is given |
| RunQueue.Queues.Enqueue | kernel/slp.c:428-506 | the new process is runnable at the head of the run queue, and no diagnostic is given |
| RunQueue.Queues.PSignal | kernel/sig.c:58-70 | a sleeper above PZERO wakes, with all who sleep with it, right if and only if there is no clash; any other only has its priority lowered |
| RunQueue.Queues.Stop | kernel/sig.c:100-117 | the parent's channel is woken, right if and only if there is no clash, and the process is on no queue |
| RunQueue.Queues.Continue | kernel/sig.c:285-322 | a stopped process becomes runnable, and the queues stay in order |
| RunQueue.Queues.Die | kernel/sys1.c:445-464 | a zombie is on no queue |
| RunQueue.LosesOne | kernel/slp.c:92-119 | a bucket in which wakeup leaves a sleeper asleep |
| RunQueue.TearsQueues | kernel/slp.c:92-119 | a bucket in which wakeup takes one process off the run queue and leaves another on two queues |
| FreeList.FreePushes | kernel/alloc.c:90-124 | free pushes the block on the one stack that cache and chain make up, also when the cache spills into the block |
| FreeList.AllocPops | kernel/alloc.c:32-85 | alloc pops that stack, also when the cache is refilled from the block taken, and hands the block out cleared |
| FreeList.AllocUndoesFree | kernel/alloc.c:32-124 | alloc after free gives the same block and the same cache, even across a spill, and the same count of free blocks |
| Volume.Device.constructor | kernel/alloc.c:90-124 | a device with empty inodes and all its blocks in limbo is in order |
| Volume.Device.Format | kernel/alloc.c:90-124 | freeing them all ends with every block from isize to fsize on the free list and s_tfree their number |
| Volume.Device.Alloc | kernel/alloc.c:32-85 | the top of the stack, cleared, or 0 exactly when the stack is empty |
| Volume.Device.Free | kernel/alloc.c:90-124 | pushes a block in range, and ignores any other |
| Volume.Device.BMap | kernel/subr.c:20-110 | says exactly which logical blocks there are; returns the block at that place of the tree; changes nothing when it only reads or when the block exists; otherwise adds blocks on the way without moving any other block or changing any byte of any file |
| FileMap.DistinctBlocks | kernel/subr.c:20-110 | two logical blocks of one file, or of two files, never have the same block |
| FileTree.PlaceOnce | kernel/subr.c:36-69 | the index arithmetic sends different logical blocks to different places |
| FileTree.PlaceReached | kernel/subr.c:36-69 | and reaches every data place |
| FileTree.AttachKeeps | kernel/subr.c:71-110 | giving a place the block alloc takes keeps every block in exactly one place |
| FileBytes.AttachBytes | kernel/subr.c:71-110 | and changes no byte of any file, a hole having been zeros |
| FileBytes.StoredBytes | kernel/rdwri.c:87-133 | storing into a file's block changes exactly those bytes of that file, and none of any other |
| Volume.Device.WriteI | kernel/rdwri.c:87-133 | the file becomes the old one with the data laid over it, as far as it got, every other byte of every file unchanged; which error ends it and how far it got is exact; the size becomes the larger of the old size and the end of the transfer; what is beyond the end of every file stays zero, so that a gap left behind the old end reads as zeros |
| Volume.Device.ReadI | kernel/rdwri.c:20-77 | changes nothing and moves exactly the bytes of the file from the offset to the count or the end of the file, holes as zeros |
| FileIo.ReadsBack | kernel/rdwri.c:20-133 | what was written reads back |
| Volume.TailWritten | kernel/rdwri.c:87-133 | however a write ends, the bytes beyond the end of every file are zero |
| Volume.SizePastLimit | kernel/rdwri.c:109-132 | a write takes the size past the last byte a file can have if and only if it fails with EFBIG |
| Volume.PastLimit | kernel/rdwri.c:109-132 | a new file whose size says it has a byte that is nowhere |
| Volume.Device.TLoop | kernel/iget.c:209-239 | frees everything behind an indirect block and the block itself, each once |
| Volume.Device.ITrunc | kernel/iget.c:177-207 | frees precisely the blocks at places of the file, each once; the file is empty; no byte of any other file changes; bytes beyond the ends of files stay zero |
| FileTrunc.DoomedAre | kernel/iget.c:177-239 | what the truncation visits behind an address is exactly what is at a place behind it |
| FileTrunc.DoomedOnce | kernel/iget.c:177-239 | and it visits each block once |
| FileTrunc.FreeLimbo | kernel/alloc.c:90-124 | freeing a block in limbo overwrites at most that block, so every file keeps its blocks and bytes |
| UserCopy.UserAcc | kernel/utab.c:169-182 | every word of the span is mapped, and none beyond the address space |
| UserCopy.SpanExact | kernel/ucopy.c:73-79 | the word span of n bytes holds exactly the words in which one of the bytes is |
| UserCopy.USpan | kernel/ucopy.c:73-79 | every word that holds one of the bytes is mapped |
| UserCopy.Traffic.CopyInB | kernel/ucopy.c:83-160 | succeeds exactly if the user's words are all mapped; then it is a byte-by-byte copy that changes no other byte, at every length and pair of phases; the three counters add up to the bytes moved, at most ten by the byte; otherwise nothing changes |
| UserCopy.Traffic.CopyOutB | kernel/ucopy.c:165-231 | the same, to user memory |
| UserCopy.Traffic.Copy | kernel/ucopy.c:95-160 | edges, bulk words and funnel shift together copy the bytes, reading no source word and writing no destination word outside the spans |
| AsmParse.ParsePrint | cmd/as/expr.c:262-309 | parsing the printing of any tree with the fewest parentheses, within the nesting limit, consumes exactly its tokens and gives the tree's value and segment, or its error |
| AsmParse.Climb | cmd/as/expr.c:220-242 | at every precedence level, whatever follows, the climb takes a printed tree for its value and goes on behind it |
| AsmMeaning.MeaningIs | cmd/as/expr.c:141-206 | for every assignment of bases, value plus base of the segment is the value the whole expression has under those bases, if braces are only around absolute terms |
| AsmMeaning.MeaningStands | cmd/as/expr.c:21-206 | for every expression and every assignment of bases, value plus base of the segment is the expression below the exponent field, braces or not, and altogether if and only if the outermost braces around something relocatable cut no bit that the base would have changed |
| AsmMeaning.AddressMeans | cmd/as/expr.c:21-206 | so the 15 bits of an address and the 24 of a symbol or half-word are always those of value plus base |
| AsmParser.ParseMeans | cmd/as/expr.c:262-309 | the same of the value and segment that parsing the tree's tokens gives |
| AsmRelocate.ParsedMeans | cmd/as/pass2.c:88-155 | from an expression's tokens to the address and the word pass 2 makes of it, at any placement of segments and symbols below 2^24: the address is what the expression means, and the word is if and only if no carry leaves the 15-bit field and the braces cut nothing that matters |
| AsmRelocate.InstructionMeans | cmd/as/pass1.c:316-347 | the field of an instruction in the finished image is the 15-bit meaning of the expression it was given, if and only if a field of its width can hold that; it fails only for a short reference to the const segment |
| AsmRelocate.LiteralMeans | cmd/as/pass1.c:300-315 | the word an instruction given a literal addresses is the literal's meaning, if and only if no carry leaves the 15-bit field and the braces cut nothing that matters |
| AsmRelocate.WordIff | cmd/as/pass1.c:586-604 | so for a .word |
| AsmRelocate.HalfMeans | cmd/as/pass1.c:572-585 | a .half is the 24-bit meaning of its expression if and only if no carry leaves the 15-bit field |
| AsmRelocate.SymbolMeans | cmd/as/pass2.c:195-233 | a symbol's 24 bits plus the base of its segment are the 24-bit meaning of its expression |
| AsmRelocate.BelowStart | cmd/as/pass2.c:88-115 | a .word for which a borrow is left in the upper bits |
| AsmRelocate.CutBorrow | cmd/as/expr.c:52-61 | a .word without carry for which braces cut too early |
| AsmRelocate.ShortPast | cmd/as/pass2.c:88-115 | a short reference above the const segment that addresses word 0 |
| AsmParser.Parser.ParseExpr | cmd/as/expr.c:262-309 | the parser on its token cursor gives the specified result, leaves the cursor behind it, restores the depth, and leaves in extref the name the result is relative to |
| AsmParser.Parser.ParseBinary | cmd/as/expr.c:220-242 | so for the operators folded onto a left operand |
| AsmParser.Parser.ParseTerm | cmd/as/expr.c:73-98 | so for a term |
| AsmParser.Parser.ParseOperand | cmd/as/expr.c:21-62 | so for an operand |
| AsmPool.Probe | cmd/as/pass1.c:153-182 | every probe ends, with the entry for the key if and only if there is one, and else at the free slot where it would be filed |
| AsmPool.FiledGrows | cmd/as/pass1.c:23-41 | filing a key there keeps all keys different and every entry reachable by its probe |
| AsmPass1.Pass1.Register | cmd/as/pass1.c:23-41 | a new key is added unless the table is full, an old one never again; every entry agrees with the const segment |
| AsmPass1.Pass1.EmitHalfword | cmd/as/pass1.c:57-78 | the half-word is appended; a finished absolute const word is entered under its value while the table has room; what was laid down before stays |
| AsmPass1.Pass1.AlignSegment | cmd/as/pass1.c:91-106 | the segment is padded to a whole word, and everything else stays |
| AsmPass1.Pass1.SetLocation | cmd/as/pass1.c:118-134 | moves forward exactly to the given word, and refuses to move back |
| AsmPass1.Pass1.Intern | cmd/as/pass1.c:153-182 | the offset is of a const word that serves as the value; a known constant costs nothing and always gets the same offset, a new one is appended, and entered while the table has room |
| AsmPass1.Pass1.Literal | cmd/as/pass1.c:300-347 | assembles a reference to a word that serves as the operand, or to word 0 for a plain zero; it fails exactly with an index register, in the const segment, or for an offset a short field does not reach |
| AsmPass1.Pass1.Direct | cmd/as/pass1.c:316-347 | assembles an instruction with an ordinary address, whatever its register number spills into; it fails exactly when a short field cannot hold the address or offset |
| AsmPass1.Pass1.Word | cmd/as/pass1.c:586-604 | the segment ends in a word that serves as the value |
| AsmPass1.Pass1.Finish | cmd/as/pass2.c:21-28 | the four segments with an image are padded to whole words |
| AsmSegments.JoinedIs | cmd/as/pass1.c:57-78 | the key recorded for a word is that word modulo 2^48, and is that word if and only if no bit of the high half spills |
| AsmSegments.SpilledKey | cmd/as/pass1.c:57-78 | a const word recorded under a key that is not the word |
| AsmShort.ShortRoundTrip | cmd/libaout/shortaddr.c:18-46 | a short field gives back every address that fits, and putting one touches nothing else |
| AsmPass2.ServingIsDotWord | cmd/as/pass2.c:124-155 | a word that serves as a value relocates to what a .word of the value relocates to |
| AsmPass2.EmitSegment | cmd/as/pass2.c:184-253 | the segment comes out relocated half-word by half-word, if and only if every one can be |
| AsmPass2.EmitSegments | cmd/as/pass2.c:184-253 | so do all four, if and only if the const segment can be reached and each can be relocated |
| AsmPass2.RefArrives | cmd/as/pass2.c:88-155 | after pass 2 every literal operand addresses a word equal to what a .word of it would have become, and every ordinary address field is the address plus its base, exactly when a field of its width can hold that |
| AsmPass2.Complete | cmd/as/pass2.c:184-253 | so for every assembly that succeeds, whatever pass 1 did and whether or not its table filled up, and it succeeds exactly if the const segment can be reached and every half-word relocated |
| Callouts.InsertSums | kernel/clock.c:178-207 | arming a call leaves every other deadline as it was, gives the new one its own, and puts it behind those due at the same time |
| Callouts.TickedSums | kernel/clock.c:57-84 | a tick brings every deadline that is not due one nearer, and what is due heads the table |
| Callouts.InsertTail | kernel/clock.c:57-84 | a call armed while due calls run comes out as if those that have run had been removed first |
| CalloutRuns.StepInv | kernel/clock.c:57-84 | every step keeps table and pending requests in agreement, and does to the table what timeout and the tick are specified to do |
| CalloutRuns.RunsOnce | kernel/clock.c:57-84 | in every run each request is pending once or has run once, never both; it runs at the first open tick at or after its deadline, which for a call asked for without delay by a call is the same tick |
| ClockTable.Clock.Timeout | kernel/clock.c:178-207 | arms exactly if there is room for the call and the end mark; says exactly when it panics and exactly when it runs past the table |
| ClockTable.Clock.Tick | kernel/clock.c:57-84 | the decrement, run and compact passes in place do to the table what a tick is specified to do, calls armed without delay by calls included, if and only if the calls armed meanwhile fit |
| ClockTable.Overruns | kernel/clock.c:178-207 | a table for which timeout runs past its end |
| CharLists.Lists.CInit | kernel/prim.c:147-161 | all blocks are free and all queues empty |
| CharLists.Lists.Getc | kernel/prim.c:55-85 | takes the first character of that queue, or -1 if it is empty, and no other queue changes |
| CharLists.Lists.Putc | kernel/prim.c:89-116 | appends the character to that queue; -1, with nothing changed, exactly when that needs a block and none is free |
| CharLists.Lists.QToB | kernel/prim.c:119-129 | what is moved and what is left are together what was there |
| CharLists.Lists.BToQ | kernel/prim.c:133-143 | what fitted is appended, and characters are left over only when no block is free |
| CharLists.AllComeBack | kernel/prim.c:55-85 | when all queues are empty all blocks are free: none is ever lost |
| PipeRuns.StepKeeps | kernel/pipe.c:59-184 | every step of every process keeps the pipe in order |
| PipeRuns.BytesInOrder | kernel/pipe.c:59-158 | in every run with any number of processes, what was read is a prefix of what was written, and the file never exceeds 2*PIPSIZ-1 bytes |
| PipeRuns.NoLostWakeup | kernel/pipe.c:59-184 | every sleeper has somebody who will wake it: the lock is held and wanted, or the pipe is empty or being written and its reader's flag is up, or it is full and its writer's flag is up |
| PipeRuns.NoDeadlock | kernel/pipe.c:59-184 | when nothing can run, nobody waits for the lock, and the sleepers are all readers of an empty pipe or all writers of a full one |
| PipeRuns.EndOfFile | kernel/pipe.c:59-98 | a read returns nothing at once exactly when the pipe is empty and no writer is left, and then everything written was read |

## Findings

Where the code does not do what one would expect, the model follows the code, a member shows an input, and
another says exactly when it happens.

- **A wakeup can go wrong when the swapper is due** (kernel/slp.c:92-164). `setrun` on a process that is out of
  core wakes `&runout` while the outer `wakeup` still walks its bucket. If the swapper sleeps in that bucket
  directly behind that process, and somebody further on waits for the channel, the rest of the bucket is left
  asleep (`RunQueue.LosesOne`). If the swapper is the last process before it that stays asleep, and the next one
  waits for the channel, the next one is cut out of the wrong list (`RunQueue.TearsQueues`). `Wakeup` is right
  if and only if neither is the case.
- **A store into a text can be lost** (kernel/text.c:272-286). No page is read-only, but only a debugger's write
  sets XWRIT, and a text without it is not written out again. `ProcLost.LostStore` is a run from boot;
  `ProcLaws.ComesBackIff` says which texts come back as they were.
- **A full callout table is not always noticed** (kernel/clock.c:178-207). `timeout` looks for a full table only
  at the place of the new call, so a call that is not the last one pushes the end mark off the table
  (`ClockTable.Overruns`; the exact condition is in `ClockTable.Clock.Timeout`).
- **A write that is too big still moves the size** (kernel/rdwri.c:87-133). `bmap` sets EFBIG and returns 0, and
  `writei` raises `i_size` by the block that was not written (`Volume.PastLimit`, `Volume.SizePastLimit`).
- **A word is relocated in its low 15 bits only** (cmd/as/pass2.c:88-115). `.word l - 1` with `l` at the start of
  its segment keeps the borrow in its upper bits (`AsmRelocate.BelowStart`), and braces cut before the base is
  added (`AsmRelocate.CutBorrow`). `AsmRelocate.WordIff` says which words are right; addresses in 15 bits and
  symbols always are.
- **A short reference above the const segment is not noticed** (cmd/as/pass2.c:88-115). Only the segment itself is
  checked against its limit, so an expression that points above it wraps around (`AsmRelocate.ShortPast`;
  `AsmRelocate.InstructionMeans` says exactly when).
- **A map can fill its table** (kernel/malloc.c:64-75, include/sys/param.h:29-30). A run put into the last slot
  leaves no slot to end the table, and the next search runs past it (`ResourceMap.NoEnd`,
  `ProcCrowd.CoreMapFills`). `ResourceMap.MFree` says when that happens and `ProcRoom.AlwaysRoomy` when it cannot.
- **exec without a text entry** (kernel/text.c:193-197, kernel/sys1.c:305-346). When no entry is left the process is
  sent a kill signal, but exec goes on and gives it sizes that include the text (`UserNoText.ExecUnfit`,
  `UserExec.ExecFits`).
- **A const word can be recorded under a key that is not the word** (cmd/as/pass1.c:57-78). A register number
  above 15 spills out of a half-word into the recorded key, so no literal finds it
  (`AsmSegments.SpilledKey`, `AsmSegments.JoinedIs`). The pool stays correct: such an entry is only useless.

## Left out

- awk's anchors HAT and NUL, the expansion of character class ranges, freeing of trees, and running out of memory.
- The switch, u-area, segment and user-memory routines in assembly: their effect is taken from the comments of
  kernel/text.c:37-74 and kernel/switch.s. The saved length of the u-area's stack is not modelled.
- Sleeping inside swap(): swap-out, swap-in, fork by swap and text transfers are single steps of the runs, and
  SLOCK, XLOCK, XLOAD and SIDL, which guard such sleeps, are not modelled.
- Process numbers, file and inode reference counts, and accounting in fork, exit and wait.
- exec's argument buffer, the header's checks, and what getxfile reads into data and text.
- sched's choice of whom to swap, and priorities' recomputation.
- Interrupt levels; interrupt routines that wake processes are further callers of `Wakeup`.
- The buffer cache, read-ahead, input and output errors, special files and the user-memory faults of readi and writei.
- Directories, inode allocation, mount and the other system calls and commands, which would add easier members.
- The assembler's lexer, directives' dispatch, symbol table and its relocation, the relocation records written out,
  and the linker.
- ResourceMap.MFree: requires that something ends the table; without that the code reads whatever lies behind it. The wakeup of runin that comes first is part of the scheduler's model only as a caller of Wakeup.
- ProcLaws.AlwaysGood: is about maps as long as they need to be; ProcRoom says for which runs the tables of fifty slots are long enough.
- ProcRun.StepGood: takes swap-out, swap-in, fork by swap and text transfers whole, without the sleeps inside swap().
- CalloutRuns.RunsOnce: is about a table as long as it needs to be; ClockTable.Clock.Timeout and Tick say when the table is.
- RunQueue.Queues.Die: the wakeups of parent and children, and the setrun of stopped children, are calls of Wakeup and Continue before it.
- UserCopy.Traffic.CopyInB: treats virtual word 0 as ordinary memory; on the machine it reads as 0 and stores to it are dropped, which concerns a copy to or from the first six bytes.
- Kernel.Machine.SwitchTo: the loading of the page registers after a switch is only in UserMap.Sureg, the shadow map u_upt not being a field of Machine.
- ProcLaws.TextComesBack: says nothing of a text that has not been loaded yet, which the source marks XLOAD.
- UserBreak.SBreak: the pages meant are those of data and stack; a text page may be changed by another process that shares it.
- ClockTable.Clock.Tick: delays are not negative, 0 included, and functions not null, as with every caller of timeout.
- AsmPass1.Pass1.Literal: the operand's value and segment are given; how parse_expr found them is AsmParser.Parser.ParseExpr.
- PipeRuns.StepKeeps: a pipe is a value and a step is what a process does from one place where it can sleep to the next; signals that end a write are the step Abort.
- Tables that the source updates in place (processes, texts, queues, segments, blocks) are sequences in fields that
  the methods reassign; only resource maps, callouts, position sets and copied memory are arrays.
