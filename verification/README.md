# patingOS, modelled and proved in Dafny

patingOS is a small RISC-V kernel with a user library and a shell. This project models the parts of it in which the
bookkeeping is hard, and proves what they are for. `dafny verify dfyconfig.toml` checks everything.

| files | what they model |
|---|---|
| `OrderedSeqs`, `LinkedList`, `ListUnique` | the intrusive doubly linked list and its natural merge sort, as links rewired in place |
| `Sv39`, `PageState`, `PageChanges`, `PageTable` | pages as bytes, the page free list kept inside the free pages, three-level Sv39 tables built in them |
| `Translation` | the processor's own translation of addresses, on the bytes of the tables |
| `UserMemory`, `UserFree`, `UserCopy`, `UserAccess`, `UserPermissions` | growing, shrinking, freeing and copying user memory, copying to and from it, and what the flag bits of its pages come to |
| `RunQueues`, `Scheduler*` | the run queue, and scheduler, sleep, wakeup and sleep locks as steps of any number of CPUs; mutual exclusion and other results over the calls that a run makes in `SchedulerHolding`, `SchedulerCalls` |
| `ShellTokens`, `ShellGrammar`, `ShellGist`, `Shell` | the shell's recursive-descent parser over the line buffer, a grammar for it, what a command takes from its line, and the NULs written into the buffer |
| `BufferCache`, `BufferAnswers` | the block buffer cache as steps of its clients, and what each client gets |
| `Wrappers` | types that several parts share |
| `Pieces`, `Fat32Disk`, `FatChains`, `FatFiles`, `FatWrites` | the FAT and the clusters in sectors of bytes, cluster chains, reading, extending and writing files |
| `VirtQueue` | the virtio block driver and its device, with 16-bit ring indices |
| `UserHeap` | malloc and free with boundary tags |

How the models are made:

- Code that changes things in place is a class or a method with `modifies`; its contract ties the new state to a
  function or a predicate of the old one, and lemmas say what that function or predicate keeps.
- Page tables: a machine has the bytes of all allocatable pages and the head of the free list. Beside it stands a
  state of the same memory that also says who owns each page: it is free, or a certain table of a certain tree, or the
  frame of one user page of one tree, or lent to the caller. `Inv` says that both agree, so that every contract that
  keeps `Ok()` conserves pages: none is lost and none owned twice. Translations are `Leaf(s, root, page)`.
- Concurrency: a state, a `Step` with `Enabled` and `Apply`, an invariant that each step keeps, and theorems about runs
  of any length. A step ends where a spin lock is taken or given back. Auxiliary fields (`claim`, `cpu`, `mine`) are
  never looked at by a step, but for the rule that a process releases only sleep locks that it holds.
- Calls that panic become a failure result, a flag that is proved to stay clear, or a precondition. Where a
  precondition asks for more than the code's own checks do, "Left out" says so.
- Integers are unbounded, except where the width decides what happens: page-table entries, the block size in malloc,
  the 16-bit ring indices, the offset of a FAT entry, and the end of a read or write are computed in the widths of the code.

Where the code does not do what it is for, the model follows the code, and a theorem says when it does:

- `copyin` and `copyout` compare with `va0 > MAXVA`, so that a range that goes beyond MAXVA can reach the panic in
  `walk`: exactly if every page of it before MAXVA may be accessed (`UserAccess.Copyin`, `UserAccess.Copyout`).
- `free` of a block between an allocated and a free one leaves words that are no heap any more, and only there
  (`UserHeap.FreeExactly`); a block that `malloc` has just split off is such a block (`UserHeap.SplitBreaks`).
- `malloc` of more than 2^32 - 16 bytes gets a block that is too small (`UserHeap.AsizeEnough`).
- A read whose end wraps around 2^32 is not cut off at the end of the file (`FatFiles.ClipRight`), and if the file has
  a cluster at its offset the loop always runs into the end of the chain (`FatFiles.RoundsWrapped`, `FatFiles.FileRead`).
- `fileExtend` does not stop on a file without a cluster (`FatWrites.FollowNothing`), and on any other it does
  (`FatWrites.FollowEnds`).
- `fileread` may return less than it was asked for, though never nothing (`FatFiles.ReadLengthIs`), and goes on
  reading at an end mark exactly if the chain is shorter than what is to be read (`FatFiles.FileRead`).
- A write that finds no free cluster fails, but the file has its new size already (`FatWrites.FileWrite`,
  `FatWrites.FileExtend`), and then cannot be read to its end (`FatWrites.WriteWhenFull`).
- Two disk requests can be in flight; the third panics, since there are eight descriptors (`VirtQueue.Disk.Submit`).

## Model

| member | source | states |
|---|---|---|
| `LinkedList.ListSplice` | kernel/list.c:167-185 | rewiring four pairs of links moves the stretch to before another element, of the same list or of another; everything stays one or more well-linked lists with the same sentinels |
| `LinkedList.ListInsert` | kernel/list.c:154-162 | the element is linked in just before the given one and the list stays well linked |
| `LinkedList.ListRemove` | kernel/list.c:225-230 | exactly this element is unlinked, the list stays well linked, and its old successor is returned |
| `LinkedList.FindEndOfRun` | kernel/list.c:310-321 | the result is the end of the longest nondecreasing stretch, for any comparison |
| `LinkedList.InplaceMerge` | kernel/list.c:328-344 | two adjacent sorted ranges become their stable merge, in place; the rest of the list and the set of elements stay |
| `LinkedList.List.SortPass` | kernel/list.c:357-377 | one pass merges the runs in pairs and counts the runs that it puts out |
| `LinkedList.List.Sort` | kernel/list.c:349-380 | for every strict weak order the list is well linked, sorted, and a stable rearrangement of what it was; k runs take at most ceil(log2 k) + 1 passes, so the loop ends |
| `LinkedList.List.InsertOrdered` | kernel/list.c:385-397 | the element lands before the first that is greater |
| `LinkedList.List.Remove` | kernel/list.c:225-230 | the list keeps all other elements in order |
| `LinkedList.List.Reverse` | kernel/list.c:284-293 | swapping the links of every element and then those of the sentinels reverses the list |
| `LinkedList.List.PushBack` | kernel/list.c:195-197 | the element becomes the last |
| `LinkedList.List.constructor` | kernel/list.c:64-70 | an empty list is well linked |
| `OrderedSeqs.SortedStableUnique` | kernel/list.c:346-380 | a list has only one sorted stable rearrangement, so Sort's contract leaves no choice |
| `OrderedSeqs.SortedStableIsInsertAll` | kernel/list.c:346-397 | being that rearrangement is the same as being the result of inserting the elements one by one in order |
| `OrderedSeqs.MergeStable` | kernel/list.c:323-344 | merging keeps tied elements in the order of the two ranges |
| `OrderedSeqs.MergeSorted` | kernel/list.c:323-344 | merging sorted ranges gives a sorted range |
| `OrderedSeqs.RunIsSorted` | kernel/list.c:305-321 | a run is sorted |
| `OrderedSeqs.PassStable` | kernel/list.c:363-376 | a pass keeps tied elements in order |
| `OrderedSeqs.PassHalves` | kernel/list.c:355-377 | a pass leaves no more runs than it counted: at most half as many, rounded up |
| `OrderedSeqs.InsertedSortedStable` | kernel/list.c:382-397 | insertion keeps a sorted list sorted and puts the element after those that it ties with |
| `ListUnique.Unique` | kernel/list.c:403-419 | what ties with the last element kept leaves the list and, in order, joins the list of duplicates; both lists stay well linked and apart |
| `ListUnique.NothingLost` | kernel/list.c:399-403 | kept and dropped elements together are the old ones |
| `ListUnique.KeptApart` | kernel/list.c:399-403 | no two adjacent elements tie afterwards, whatever the comparison |
| `ListUnique.KeptFirst` | kernel/list.c:399-403 | of a sorted list exactly the first of the elements that tie with each other stays |
| `Sv39.IdxInjective` | include/riscv.h:138-143 | the three nine-bit indices of an address below MAXVA determine its page |
| `Sv39.PteRoundTrip` | include/riscv.h:141-144 | an entry gives back the frame and the flags that it was made from |
| `Sv39.LoadStore` | kernel/vm.c:71-86 | an entry stored in the bytes of a table page is read back, and the other 511 are not touched |
| `Translation.MadeNumbers` | include/riscv.h:119-144 | an entry in numbers: the frame from bit 10 on, V, R, W, X and U at bits 0 to 4 |
| `Translation.TranslatesLeaf` | kernel/vm.c:65-87 | the processor's own translation algorithm, run on the bytes of memory from the root page, comes to the frame of the leaf entry exactly for the accesses that the entry's bits grant, and to a page fault otherwise |
| `Translation.MappedTranslates` | kernel/vm.c:89-112 | after mappages with U in the mode the processor finds va+i at pa+i, loading with bit 1 of the mode, storing with bit 2 (and 1), running with bit 3, and faults otherwise |
| `PageState.TakeInv` | kernel/pm.c:73-85 | taking a page off the free list keeps every page exactly one of free, table, leaf owned once, or lent |
| `PageState.GiveInv` | kernel/pm.c:52-67 | so does giving a lent page back |
| `PageState.InstallInv` | kernel/vm.c:77-82 | a new empty table in the tree keeps the structure and changes no translation |
| `PageState.SetLeafInv` | kernel/vm.c:99-105 | writing one leaf entry changes the translation of this page of this tree only, and keeps the ownership of all pages in step |
| `PageState.CutInv` | kernel/uvm.c:83-87 | clearing the link to a table before going down into it loses no page |
| `PageState.DropInv` | kernel/uvm.c:93 | a table that is out of the tree and empty can be given back |
| `PageTable.Machine.constructor` | kernel/pm.c:27-45 | every whole page between the end of the kernel and the end of memory is free, once |
| `PageTable.Machine.Kpmalloc` | kernel/pm.c:72-85 | 0 exactly if no page is free; otherwise the first free page, which nobody owns any more |
| `PageState.GiveTake` | kernel/pm.c:51-85 | kpmalloc right after kpmfree gives this page back, and leaves the free list, the owners and every other page as they were |
| `PageState.TakeGive` | kernel/pm.c:51-85 | and kpmfree right after kpmalloc puts the page back where it was |
| `PageTable.Machine.Discard` | kernel/pm.c:51-67 | a lent page is free again and everything else as it was |
| `PageTable.Machine.GrowAt` | kernel/vm.c:74-83 | a missing table is made, or nothing changes because no page is free |
| `PageTable.Machine.Walk` | kernel/vm.c:65-87 | finds the last-level table of the address; without alloc nothing changes and 0 means that there is none; with alloc only empty tables are added, no translation changes, and 0 means that no page is free |
| `PageTable.Machine.Mappages` | kernel/vm.c:89-112 | refines map update: pages va+i map to pa+i with the flags for the first k pages, all k of them if and only if the result is 0, and all other translations of all trees are as before; failure means that no page is free |
| `UserMemory.Uvmunmap` | kernel/uvm.c:15-35 | exactly these pages lose their translation; their frames go to the free list or to the caller, each once |
| `UserMemory.Uvmcreate` | kernel/uvm.c:158-165 | 0 exactly if no page is free; otherwise a tree without any mapping |
| `UserMemory.Uvmdealloc` | kernel/uvm.c:67-77 | the pages between the two sizes are unmapped and free |
| `UserMemory.Uvmalloc` | kernel/uvm.c:39-61 | all or nothing: either every page between the sizes is new, zeroed, on a frame that was free, with the flags asked for, or the result is 0, the translations are as at entry, and of all pages only new empty tables are missing from the free list |
| `UserMemory.RollBack` | kernel/uvm.c:49-58 | taking back what was mapped so far restores the translations as they were at entry |
| `UserMemory.UserModeBits` | kernel/uvm.c:54 | the flags of a new user page, bit by bit |
| `PageChanges.AllocatedUnmapped` | kernel/uvm.c:39-77 | what uvmalloc mapped and uvmdealloc took away again leaves the old address map |
| `UserMemory.AllocatedTakenBack` | kernel/uvm.c:39-77 | and all its frames are free again |
| `UserFree.FreeEntry` | kernel/uvm.c:83-91 | one entry: below a link the whole subtree goes, a user leaf goes, any other leaf's frame is not touched |
| `UserFree.UvmfreeRecursive` | kernel/uvm.c:79-94 | the tables below and at this entry, and the user pages that they map, are free |
| `UserFree.Uvmfree` | kernel/uvm.c:96-98 | every table page and every user page of the tree is free, once, every other page keeps its owner and its content, and all other trees their translations |
| `UserFree.FreedAll` | kernel/uvm.c:79-98 | the recursion from the root over all indices is the destruction of the tree |
| `UserCopy.Uvmcopy` | kernel/uvm.c:100-122 | on success the new table maps below sz exactly the pages that the old one maps for the user, with the same permissions and content, on frames that were free; a failure has copied a prefix, for want of free pages; the old table, its pages and all other trees are untouched |
| `UserCopy.FreeRestores` | kernel/uvm.c:79-122 | making a tree, copying into it, whole or not, and freeing it again leaves the same pages free and every other page as it was |
| `UserCopy.CopyModeBits` | kernel/uvm.c:116 | the flags of the copy are the R, W, X and U of the original |
| `UserAccess.Walkaddr` | kernel/uvm.c:138-154 | the frame of the page if it is mapped for the user and below MAXVA, 0 otherwise |
| `UserAccess.CopyoutPage` | kernel/vm.c:153-166 | one round: the bytes that fit in the page are written where the address map says, or nothing is, for exactly the reason given; which mode bits allow it is in MapAndCopyout |
| `UserAccess.Copyout` | kernel/vm.c:148-169 | refines writing byte by byte through the address map, over any number of pages: the bytes before the first page that is not writable for the user are written, no other byte of any process changes; which mode bits make a page writable is in MapAndCopyout; it reaches the panic of walk if and only if the range goes beyond MAXVA and every page of it before MAXVA may be written, so never if dst + len <= MAXVA |
| `UserAccess.Copyin` | kernel/vm.c:171-192 | reads byte by byte through the address map, up to the first page not mapped for the user; it reaches the panic of walk if and only if the range goes beyond MAXVA and every page of it before MAXVA may be read |
| `UserAccess.PanicsAt` | kernel/vm.c:153-156 | where a transfer stands decides whether it panics: the exact condition on range and address map |
| `UserAccess.AtMaxva` | kernel/vm.c:153-156 | a transfer of one byte at MAXVA panics, whatever is mapped |
| `UserAccess.CopyOutByte` | kernel/vm.c:160-162 | a write to one frame changes the bytes of one page of one process |
| `UserAccess.ReadBack` | kernel/vm.c:148-192 | copyin of a range that copyout has written gives the same bytes, all of them |
| `UserPermissions.MapAndCopyout` | kernel/vm.c:89-169 | mappages, then copyout of a nonempty range into the pages: done if bit 2 of the mode is set, and -1 if not |
| `UserPermissions.UserModeNumbers` | kernel/uvm.c:54 | in the mode of a new page bits 1 and 4 are set, and bits 2 and 3 are those of xperm |
| `UserPermissions.GrowAndCopy` | kernel/vm.c:148-192 | uvmalloc with bit 2 in xperm, then copyout to the new memory and copyin from it: all done, and the bytes come back; without bit 2 copyout fails |
| `UserPermissions.GrownTranslates` | kernel/uvm.c:39-61 | the processor loads zeros from every address of the memory that uvmalloc has made, stores there exactly with bit 2 in xperm and runs it exactly with bit 3 |
| `UserPermissions.ShrunkTranslates` | kernel/uvm.c:67-77 | after uvmdealloc the processor translates addresses below the new size as before and faults on whole pages beyond it |
| `UserPermissions.CopyTranslates` | kernel/uvm.c:100-122 | after uvmcopy the processor allows the child the same accesses as the parent, and every byte that they come to is equal |
| `UserPermissions.KernelAsProcessor` | kernel/vm.c:148-192 | where the processor lets the process load or store, copyin and copyout may go, and come to the same byte; and conversely on every page with R |
| `RunQueues.CfsIsOrder` | kernel/schedule.c:16-23 | (vruntime, pid) is a strict weak order, whatever the vruntimes are |
| `RunQueues.RefreshedLeast` | kernel/schedule.c:25-31 | in a queue that is in order and has nothing below min_vruntime, a refresh makes it the least vruntime of the queue; it never falls |
| `RunQueues.RunQueue.RbPushBack` | kernel/schedule.c:33-43 | a process that is queued stays where it is; any other gets at least min_vruntime and its place in the order |
| `RunQueues.RunQueue.PickNext` | kernel/schedule.c:76-93 | takes the first RUNNABLE process; if all that are queued are RUNNABLE, that is the head and nothing is discarded |
| `RunQueues.PushFair` | kernel/schedule.c:33-43 | insertion keeps the queue sorted without duplicates, all its vruntimes at or above min_vruntime, and changes no other vruntime |
| `RunQueues.PushFirst` | kernel/schedule.c:33-43 | after an insertion the head has exactly min_vruntime, which only an insertion into an empty queue raises |
| `RunQueues.PopFair` | kernel/schedule.c:79-92 | so does taking the head |
| `SchedulerClaims.NothingDiscarded` | kernel/schedule.c:82-90 | the head of the queue is always RUNNABLE: the branch that throws a process off the queue is never taken |
| `SchedulerLocks.NoneTwice` | kernel/schedule.c:96-101 | no process is executed by two CPUs |
| `SchedulerLocks.AcquireInv` | kernel/spinlock.c:17-36 | taking a spin lock keeps lock holders and nesting depths in step with where every CPU is in the code |
| `SchedulerLocks.ReleaseInv` | kernel/spinlock.c:38-64 | so does giving it back, by the CPU that holds it |
| `SchedulerRuns.DoYieldInv` | kernel/schedule.c:61-68 | yield keeps all invariants |
| `SchedulerRuns.DoForkInv` | kernel/proc.c:497-501 | so does the start of a child |
| `SchedulerRuns.DoExitInv` | kernel/proc.c:351-364 | so does process_exit |
| `SchedulerRuns.DoSleepInv` | kernel/proc.c:561-569 | so does falling asleep, with the own lock taken before the other is given up |
| `SchedulerRuns.DoWakeInv` | kernel/proc.c:585-590 | so does what wakeup does to one process |
| `SchedulerRuns.DoPushInv` | kernel/schedule.c:33-43 | so does rb_push_back of a process whose lock is held; min_vruntime does not fall |
| `SchedulerRuns.DoPickInv` | kernel/schedule.c:76-93 | so does the choice of the next process |
| `SchedulerRuns.DoStartInv` | kernel/schedule.c:95-99 | so does the switch to the chosen process, whose lock goes with the CPU across swtch |
| `SchedulerRuns.DoSwitchInv` | kernel/proc.c:541-559 | so does the switch back, with the lock of the process handed to the scheduler loop |
| `SchedulerRuns.DoTestInv` | kernel/sleeplock.c:17-26 | so does the test of acquiresleeplock; what the call comes to is MutualExclusion |
| `SchedulerRuns.DoUnlockInv` | kernel/sleeplock.c:28-35 | so does releasesleeplock |
| `SchedulerRuns.TickInv` | kernel/trap.c:96-99 | so does the clock tick |
| `SchedulerRuns.SwitchPasses` | kernel/proc.c:547-554 | sched's checks never fail: the CPU holds the lock of the process and no other, and the process is not RUNNING |
| `SchedulerRuns.NothingMissing` | kernel/proc.c:576-592 | no step refers to a process or a lock that is not there |
| `SchedulerRuns.InitInv` | kernel/proc.c:522-532 | all invariants hold when the first process is queued and every CPU is in its loop |
| `SchedulerRuns.StepInv` | kernel/schedule.c:61-107 | every step of every CPU keeps all invariants |
| `SchedulerRuns.RunInv` | kernel/schedule.c:61-107 | so they hold throughout every interleaving, of any length and any number of CPUs |
| `SchedulerFair.QueuedWithin` | kernel/schedule.c:25-43 | queued processes have a vruntime between min_vruntime and min_vruntime + 100 |
| `SchedulerFair.FairTick` | kernel/trap.c:96-99 | a tick puts the running process at most 100 ahead |
| `SchedulerTurns.MinGrows` | kernel/schedule.c:25-31 | min_vruntime never falls, over every run |
| `SchedulerTurns.AtMostTwoTurns` | kernel/schedule.c:71-107 | while a process stays queued any other gets at most two turns that end in a clock tick |
| `SchedulerTurns.ReachableSafe` | kernel/proc.c:541-592 | in every reachable state: no panic; no process on two CPUs; the queue holds each process at most once, exactly if in_run_queue is set, and only RUNNABLE ones; a lock names the process that has it in its set; no lost wakeup; vruntimes bounded by min_vruntime + 100 and by the ticks so far |
| `SchedulerHolding.MutualExclusion` | kernel/sleeplock.c:17-35 | in every run, from the return of acquiresleeplock to the call of releasesleeplock the lock is taken and names this process, and no other process is between these two calls |
| `SchedulerHolding.ReleaseFrees` | kernel/sleeplock.c:28-35 | when releasesleeplock returns the lock is free |
| `SchedulerHolding.HoldersNamed` | kernel/sleeplock.c:17-45 | back in its own code, a process may release exactly the locks that it holds in this sense; and a lock names nobody but a process that holds it or is within one of the two calls |
| `SchedulerCalls.ReleaseWakes` | kernel/proc.c:576-592 | when releasesleeplock returns nobody sleeps on the lock |
| `SchedulerCalls.WokenByRelease` | kernel/proc.c:561-592 | who sleeps on a lock is woken only by a process that is within releasesleeplock of this lock, and becomes RUNNABLE |
| `SchedulerCalls.DispatchesTaken` | kernel/schedule.c:76-99 | in every run, the process that a CPU switches to is the one that stood first in the queue when this CPU last took one off; it is RUNNING then |
| `SchedulerCalls.TakesLeast` | kernel/schedule.c:16-23 | the process that a CPU takes off the queue has the least vruntime of all queued, and of those that tie the least pid |
| `SchedulerCalls.ForkReturns` | kernel/proc.c:497-501 | when fork returns the child is RUNNABLE and the caller is its parent, though other CPUs run in between |
| `SchedulerCalls.StatusIs` | kernel/proc.c:541-592 | which step gives which process a new status, of all steps and processes: the moves of yield, sleep, wakeup, fork, exit and the scheduler loop, and no others |
| `ShellTokens.GetToken` | user/sh.c:253-294 | reads exactly the first token of what is left and returns its code and bounds; 0 exactly at the end of the line |
| `ShellTokens.Peek` | user/sh.c:296-304 | skips white space only, and tells whether the next token is one of the given symbols |
| `ShellTokens.SpellToks` | user/sh.c:253-294 | a token sequence that is written out is read back |
| `ShellTokens.TokenRead` | user/sh.c:253-294 | one call moves past one token and the white space around it |
| `Shell.ParseRedirs` | user/sh.c:352-373 | refines the grammar's redirections, fails exactly where a file name is missing, and what it collects are the line's redirections in order with the numbers of RedirsGist |
| `Shell.ParseExec` | user/sh.c:389-418 | refines the grammar's simple command, with its limit of nine arguments, and its errors |
| `Shell.ParseBlock` | user/sh.c:375-387 | refines the parenthesised command followed by redirections |
| `Shell.ParsePipe` | user/sh.c:341-350 | refines the grammar's pipe |
| `Shell.ParseLine` | user/sh.c:326-339 | refines the grammar's line, with & and ; |
| `Shell.ParseCmd` | user/sh.c:311-324 | on success the whole line is one command of the grammar and its words, read as C strings from the changed buffer, are that command's: the line's words, redirections and joints in order (ParseGist); otherwise the error is the grammar's and the buffer is as it was |
| `Shell.NulTerminate` | user/sh.c:421-463 | writes a NUL at the end of every word of the command and nowhere else |
| `Shell.WordsSurvive` | user/sh.c:421-463 | read as C strings afterwards, words are what they were as slices |
| `Shell.RunsApart` | user/sh.c:253-294 | two words are the same slice or do not overlap |
| `Shell.NoEndInside` | user/sh.c:421-463 | no word ends inside another |
| `ShellGrammar.PrintParse` | user/sh.c:311-418 | printing a command, with the parentheses it needs, and parsing the tokens gives the command back |
| `ShellGrammar.RoundTrip` | user/sh.c:253-418 | so does printing it as a line of characters: for every command tree with at most nine arguments to a simple command, sound words and the three redirection forms |
| `ShellGrammar.ParsePrintParse` | user/sh.c:253-418 | the other way round: whatever line parses, its command can be printed, and parses to the same command |
| `ShellGist.ParseGist` | user/sh.c:311-418 | for every line that parses, the command has the line's words, its redirections and its joints (pipe, semicolon, ampersand), each in the order of the line, wherever among the words they stand |
| `ShellGist.RedirsGist` | user/sh.c:352-373 | < opens for reading as 0, > with mode 0x601 as 1, >> with mode 0x201 as 1, so that > always truncates and >> never does |
| `ShellGist.TokenIs` | user/sh.c:253-294 | which characters are which redirection |
| `ShellGist.NineWords` | user/sh.c:389-418 | a line of words alone is that command up to nine words, and an error from ten on |
| `BufferCache.Scan` | kernel/fs/buf.c:38-47 | a hit exactly if some buffer has the key, and then the first; otherwise the first buffer that nobody refers to, if there is one |
| `BufferCache.InitInv` | kernel/fs/buf.c:14-25 | the invariant holds after binit, where all buffers have the key (0, 0) |
| `BufferCache.GetInv` | kernel/fs/buf.c:30-60 | bget keeps used buffers before unused ones and their keys distinct; it panics if and only if every buffer is referenced and none has the key; for its answer see GetAnswers |
| `BufferCache.StepInv` | kernel/fs/buf.c:30-107 | every step of every client keeps the invariant |
| `BufferCache.ReadsDisk` | kernel/fs/buf.c:62-71 | what bread returns is what the disk has, for as long as the client has not changed it |
| `BufferCache.OneAtATime` | kernel/fs/buf.c:43-58 | no two clients hold the same block |
| `BufferCache.Refines` | kernel/fs/buf.c:62-95 | every step is a step of a plain disk: a read gets what the disk has, a write changes this block only, and nothing else touches the disk |
| `BufferCache.RunInv` | kernel/fs/buf.c:14-107 | the invariant holds throughout every run from binit, whatever the clients do |
| `BufferCache.ReadsLastWritten` | kernel/fs/buf.c:62-77 | in every run from binit, bread returns the block that was last written, or what the disk had at first; ReadsAsked says that it is the block asked for |
| `BufferCache.KeyKept` | kernel/fs/buf.c:49-56 | a buffer that is referenced or pinned is never given another key |
| `BufferCache.WithoutUsed` | kernel/fs/buf.c:87-92 | taking a buffer out of the list keeps the used ones in front |
| `BufferAnswers.GetAnswers` | kernel/fs/buf.c:30-60 | without a panic the caller waits for a buffer with the device and block that it asked for: the one that had it, with its bytes, or else one that nobody used, not valid; nothing else changes |
| `BufferAnswers.PutAnswers` | kernel/fs/buf.c:81-95 | one reference less; with the last one the buffer comes to the front of the list, and all others keep their order |
| `BufferAnswers.RefcntCounts` | kernel/fs/buf.c:97-107 | in every run refcnt is the number of clients between bget and brelse of the buffer plus the calls of bpin less those of bunpin |
| `BufferAnswers.CacheIsPlain` | kernel/fs/buf.c:30-107 | in every run, of any number of clients, the disk and the bytes that every client has are those of a disk without a cache, computed from the calls alone |
| `BufferAnswers.ReadsAsked` | kernel/fs/buf.c:62-77 | bread and bwrite concern the block of this client's last bget, and bread gives what was last written to it |
| `Fat32Disk.EntriesApart` | include/fs/fat32.h:94-101 | different clusters have their FAT entries at different places |
| `Fat32Disk.ClustersApart` | include/fs/fat32.h:102-105 | different clusters have different sectors |
| `Fat32Disk.ClusterOnDisk` | include/fs/fat32.h:102-105 | the sectors of a cluster are in the data area |
| `Fat32Disk.EntryInFat` | include/fs/fat32.h:94-98 | the entry of every cluster is in the first FAT, before the data area |
| `Fat32Disk.Layout` | kernel/fs/fat32.c:36-41 | the data area begins behind the reserved sectors and the FATs with cluster 2, and each cluster follows the one before it |
| `Fat32Disk.ByteAt` | include/fs/fat32.h:102-105 | byte k of cluster c is byte k % 512 of sector reserved + fats * fatSize + (c - 2) * perCluster + k / 512 |
| `Fat32Disk.EntryAt` | include/fs/fat32.h:94-101 | entry c is the little-endian 32-bit number 4 * c bytes behind the reserved sectors |
| `Fat32Disk.WordSet` | kernel/fs/fat32.c:136-139 | a 32-bit entry written into a sector of bytes is read back and no other entry of the sector changes |
| `Fat32Disk.Volume.FatRead` | kernel/fs/fat32.c:109-123 | the entry of the number, and 0 exactly where the check refuses it |
| `Fat32Disk.Volume.FatWrite` | kernel/fs/fat32.c:125-148 | exactly this entry of the first FAT changes, no other and no byte of any cluster; a number beyond the clusters that the check lets pass changes one sector |
| `Fat32Disk.Volume.ClusZero` | kernel/fs/fat32.c:183-193 | the cluster is all zeros; no other cluster and no FAT entry changes |
| `Fat32Disk.Volume.ClusRead` | kernel/fs/fat32.c:195-219 | across its sectors, exactly the asked stretch of the cluster |
| `Fat32Disk.Volume.ClusWrite` | kernel/fs/fat32.c:221-247 | across its sectors, exactly this stretch of this cluster changes and nothing else on the disk |
| `FatChains.ChainAcyclic` | kernel/fs/fat32.c:68-78 | a chain that ends in an end mark has no cycle |
| `FatChains.ChainFits` | kernel/fs/fat32.c:68-78 | a chain is no longer than the FAT |
| `FatChains.ChainUnique` | kernel/fs/fs.c:298-306 | a file's first cluster determines its chain |
| `FatChains.LinkedChains` | kernel/fs/fat32.c:158-165 | clusalloc lengthens the given chain by one formerly free cluster, keeps all chains well-formed and disjoint, and lowers the free set by this cluster |
| `FatChains.LinkedNew` | kernel/fs/fat32.c:158-165 | without a predecessor it starts a new chain |
| `FatFiles.ClusAlloc` | kernel/fs/fat32.c:150-174 | the first free cluster, linked, marked as the end and cleared; 0 and no change exactly if none is free |
| `FatFiles.CountClusters` | kernel/fs/fat32.c:55-79 | the length of the file's chain |
| `FatFiles.FileGetClusNo` | kernel/fs/fs.c:298-306 | the cluster of the chain with this index, or an end mark beyond it; 0 for a file without clusters |
| `FatFiles.FileRead` | kernel/fs/fs.c:314-344 | a contiguous stretch of the file from off on, of 1 to n bytes: the rest of one cluster and (n-1)/cs clusters; 0 at the end, an error beyond it or where the chain has no such cluster; it comes to an end mark in place of a cluster exactly if the chain goes on at off, but ends before what is to be read or the end of the request wraps around |
| `FatFiles.ReadPieces` | kernel/fs/fs.c:332-343 | the first piece and what the loop adds are that stretch |
| `FatFiles.ReadRest` | kernel/fs/fs.c:335-343 | the loop over further clusters, for any number of rounds that is right or larger than the chain: it ends with that stretch, or at an end mark exactly if the chain is too short or the number is wrong |
| `FatFiles.RoundsWrapped` | kernel/fs/fs.c:323-336 | if off + n - 1 wraps around in 32 bits, the loop is to run more often than there are clusters on any volume |
| `FatFiles.ReadLengthIs` | kernel/fs/fs.c:332-343 | fileread always makes progress, and reads all that was asked for if and only if the bytes beyond whole clusters fit in what is left of the first |
| `FatFiles.ReadAll` | kernel/fs/fs.c:314-344 | a caller of fileread with requests of any sizes, each from where the last one ended, gets exactly the file |
| `FatFiles.ClipRight` | kernel/fs/fs.c:315-319 | the cut that fileread makes at the end of the file is right if and only if off + n does not wrap around in 32 bits |
| `FatWrites.FileExtend` | kernel/fs/fs.c:350-367 | as many clusters as the growth takes, or all that are free, are added to this chain, cleared; other chains and all contents stay; the size is the new one in any case; a chain that reached to the old size reaches to the new one if and only if it would with all free clusters |
| `FatWrites.FollowEnds` | kernel/fs/fs.c:359-362 | the loop that looks for the last cluster of a chain ends, after as many rounds as there are clusters |
| `FatWrites.FollowNothing` | kernel/fs/fs.c:357-362 | for a file without a cluster it never does |
| `FatWrites.ExtendedReaches` | kernel/fs/fs.c:350-367 | afterwards the chain reaches to the new size if and only if it could with all free clusters |
| `FatWrites.FileWrite` | kernel/fs/fs.c:369-398 | for at most a cluster of bytes: min(n, cs - off%cs) bytes are stored at off, all other bytes of the file stay, new ones are zero, and every other file holds what it held; an error, with the size already changed, if there was no cluster left |
| `FatWrites.WriteThenRead` | kernel/fs/fs.c:314-398 | fileread after filewrite gives the bytes that were stored, in one read; if the file has room at off, these are as many as fit in the cluster |
| `FatWrites.WriteWhenFull` | kernel/fs/fs.c:314-398 | on a full disk, a write to beyond the end of the chain leaves a file whose reading from the start comes to an end mark in place of a cluster |
| `VirtQueue.Disk.constructor` | kernel/virt.c:97-99 | all descriptors are free and nothing is in flight |
| `VirtQueue.Disk.AllocDesc` | kernel/virt.c:108-119 | takes the first free descriptor; -1 exactly if there is none |
| `VirtQueue.Disk.Alloc3Desc` | kernel/virt.c:152-166 | three different free descriptors, or none taken, exactly if fewer than three are free |
| `VirtQueue.Disk.FreeChain` | kernel/virt.c:137-150 | following the links frees exactly the three descriptors of the request |
| `VirtQueue.Disk.Submit` | kernel/virt.c:168-232 | a request on three fresh descriptors of 16, 512 and 1 bytes, linked and flagged (1; 1 or 3; 2) as section 5.2 of VIRTIO 1.2 asks for; it panics exactly if two requests are in flight; no ring entry that the device has not taken is overwritten, also when the 16-bit index wraps around |
| `VirtQueue.Disk.Start` | kernel/virt.c:186-232 | describing and offering the request keeps free descriptors + 3 x requests = 8, chains disjoint, and both rings in step |
| `VirtQueue.RingPut` | kernel/virt.c:222-228 | an entry more in the ring overwrites none that is still to be read, across the 16-bit wrap of the index |
| `VirtQueue.RingGet` | kernel/virt.c:265-280 | the reader finds the oldest entry, and equal indices mean that there is none |
| `VirtQueue.Disk.DeviceTake` | include/virtio_queue.h:19-30 | the device takes the oldest request that it has not taken |
| `VirtQueue.Disk.DeviceDone` | include/virtio_queue.h:31-43 | it may complete taken requests in any order; no completion that the driver has not seen is overwritten |
| `VirtQueue.Disk.SeeOne` | kernel/virt.c:265-281 | each completion gives back the buffer of its own request |
| `VirtQueue.Disk.Intr` | kernel/virt.c:243-282 | all completed requests are seen, each once, and no other buffer is given back |
| `VirtQueue.Disk.Finish` | kernel/virt.c:234-241 | the three descriptors of the request are free again, and its slot is cleared |
| `UserHeap.AsizeEnough` | user/stdlib.c:150-153 | the block size leaves room for the request if and only if the sum does not wrap around in 32 bits |
| `UserHeap.AsizeLeast` | user/stdlib.c:150-161 | the block size is the least multiple of 8 that holds the request and two tags, 16 at least; sbrk is asked for 4096 bytes, or for as much if that is more |
| `UserHeap.LiveApart` | user/stdlib.c:139-166 | blocks do not overlap, neither payloads nor tags |
| `UserHeap.PayloadWrites` | user/stdlib.c:139-166 | whatever the program writes to its payloads, the heap stays in order |
| `UserHeap.Heap.constructor` | user/stdlib.c:117-133 | prologue, epilogue and 4096 bytes more, or none if sbrk gives no more |
| `UserHeap.Heap.FindFit` | user/stdlib.c:38-47 | the first free block that is large enough; NULL exactly if there is none |
| `UserHeap.Heap.Place` | user/stdlib.c:49-65 | the block becomes allocated, split if the rest is a block; the heap stays tiled, and every live block holds what it held |
| `UserHeap.Heap.Coalesce` | user/stdlib.c:68-95 | the free block and its free neighbours become one block and the heap stays tiled, except between an allocated and a free block; in all four branches every live block holds what it held |
| `UserHeap.CoalescePayloads` | user/stdlib.c:68-95 | the words that coalesce writes are in no live block's payload |
| `UserHeap.StretchPayloads` | user/stdlib.c:49-111 | writing within some neighbouring blocks leaves the payloads of all others |
| `UserHeap.Heap.MemSbrk` | user/stdlib.c:23-35 | more memory behind the old, which is unchanged; -1 for an amount that is negative as a signed number or beyond the limit |
| `UserHeap.Heap.ExtendHeap` | user/stdlib.c:98-111 | a free block large enough at the end, for an odd number of words too, merged with a free one before it, and every live block holds what it held; or nothing has changed |
| `UserHeap.Heap.Malloc` | user/stdlib.c:139-166 | one more live block, 8-aligned, large enough and less than 16 bytes too large (or of at most 24), apart from all others, which stay and hold what they held; memory grows only if no free block has the size of the request and two tags, and then by 4096 bytes or what the request takes; NULL only if sbrk refuses this amount |
| `UserHeap.Heap.Free` | user/stdlib.c:172-181 | exactly this block stops being live, the heap stays tiled and no two free blocks are neighbours, except between an allocated and a free block; all other live blocks hold what they held in any case; nothing for NULL |
| `UserHeap.FreeExactly` | user/stdlib.c:68-95 | the words after free, all four branches carried out, are a heap again if and only if the block does not come after an allocated and before a free one |
| `UserHeap.FreeBreaks` | user/stdlib.c:75-80 | in that branch no line of blocks whatever fits the words that free leaves |
| `UserHeap.SplitBreaks` | user/stdlib.c:49-80 | the simplest program comes to that: freeing a block that malloc has just split off a free one |
| `UserHeap.CoalesceTiled` | user/stdlib.c:68-95 | in the other branches the words of coalesce are those of the line in which the free neighbours are one block |
| `UserHeap.CoalesceNext` | user/stdlib.c:75-80 | in that branch only the footer of the block itself is written, with the sum of both sizes |
| `UserHeap.CoalesceInside` | user/stdlib.c:68-95 | every address that coalesce computes is inside the heap |
| `UserHeap.PlacedLive` | user/stdlib.c:49-65 | placing adds one live block and keeps free blocks apart |
| `UserHeap.CoalescedLive` | user/stdlib.c:68-95 | merging changes no live block and leaves no two free neighbours |

## Left out

- list_max, list_min and the one-line accessors of the list would only add easy members.
- rb_pop_front is never called; it is not part of the model.
- Page tables and the page free list are those of one thread at a time: the lock of kmem is not modelled there, nor are the accessed and dirty bits, TLB flushes, uvmclear, exec and the kernel's own table with its kernel stacks.
- UserMemory.Uvmunmap: with do_free only for pages mapped for the user; kernel stacks, which fork's error path unmaps this way, are not owned in the model.
- PageTable.Machine.Mappages: only on pages that are not mapped and on a range that is not empty and below MAXVA; on others the code panics, or for an empty range does not stop at its end. Frames that are mapped for the user have to be lent to the caller, which the code does not check.
- kpm_multiple_alloc, kpm_multiple_free, kernel/buddy.c and kernel/kalloc.c, and sbrk that shrinks.
- Deadlock freedom and progress of the scheduler: sleep takes lk again while it holds p->lock, and wakeup takes p->lock while its caller holds lk, so that two processes can wait for each other; what is proved is safety, and no lost wakeup for sleep locks.
- process_wait, reaping, reuse of pids, and the handshake of exit and wait: process_exit wakes its parent without process_lock.
- process_create puts the process on process_list before it initialises p->lock; in the model both are one step. Saved interrupt states (intena) and interrupts inside critical sections are left out.
- Clients release only sleep locks that they hold.
- Shell: command nodes are values built when complete, not zeroed memory filled in later; runcmd, cd and reading the line are left out. The text of `panic` messages is left out, the errors are not.
- BufferCache: one device, transfers that are one step, and clients that write back what they change before they release it and balance bpin with bunpin; refcnt does not wrap around. The cache is a value changed by steps, not linked elements, whose in-place splicing is in LinkedList.
- FAT: sectors are read and written whole, as BufferCache shows that they may be. The root cluster is 2, the FAT has room for all clusters, and a cluster has 1, 2, 4 and so on up to 128 sectors. Agreement of the two FAT copies is left out: fatwrite changes the data of the first only.
- FatWrites.FileWrite: for at most one cluster and a byte; beyond that the loop uses the offset and the source of its first round again. The result of a write whose end is beyond 2^32 is left out.
- FatFiles.FileRead: for a file that has a cluster; where the loop comes to an end mark the model stops, while the code goes on to a sector that is not the file's.
- FatWrites.FileExtend: for a file that has a cluster (see FollowNothing).
- Fat32Disk.Volume.ClusRead: within the cluster; beyond it the code logs a message and reads on.
- Fat32Disk.Volume.ClusWrite: within the cluster; beyond it the code logs a message and writes on.
- clusfree, directories, long names, paths and file descriptors.
- VirtQueue: addresses, device registers, feature negotiation and a device that reports an error; submissions are one at a time, up to the wait.
- UserHeap.Heap.Malloc: for requests below 2^32 - 15 (see AsizeEnough) and a heap that ends below 4 GiB; realloc and calloc are left out.
- UserHeap.Heap.ExtendHeap: from three words on; malloc and mm_init ask for at least 1024.
- UserHeap.Heap.constructor: for a process that gets the 16 bytes of the prologue; after mm_init has failed on them the next malloc takes the heap for initialised.
- Device drivers other than the virtio block driver, SBI calls, the trampoline and context-switch assembly, device-tree and log output.
