# Verified models of the kernel's core

Dafny models of the parts of this xv6-style RISC-V kernel, and of three of its
user programs, where the logic is hardest: the redo log and the buffer cache
under crashes, block allocation and file contents, page tables, the user-level
heap, the shell's parser, the regular-expression matcher, the sleep/wakeup,
exit/wait and virtqueue protocols, page replacement, disk scheduling and the
multi-level feedback queue.

`dafny verify dfyconfig.toml` checks everything; the files need nothing but
each other.

## How the model is built

Code that updates state in place is a class whose methods follow the code
statement by statement, loops included. A method is specified by functions and
predicates over plain values, and the laws are lemmas about those values.
Protocols between processes, CPUs and devices are transition systems whose
steps are the lock-protected actions of the code, and their laws hold in every
state of every run.

| file | what it models |
|---|---|
| Cache, Bio, Lru | kernel/bio.c: what a block's latest value is, over all processes that use the cache; the code of the cache and its recency list |
| CrashSafety | the device states that commit and recovery go through, and what a crash leaves |
| Log, LogProtocol | kernel/log.c: the code of the log, and its reservation protocol over all processes |
| CommitRuns | kernel/log.c: commit interleaved with processes that read |
| FsModel, Fs, DiskFormat | kernel/fs.c, kernel/file.c: ownership of blocks, files as byte sequences; kernel/fs.h over the raw bytes |
| Durable | one chunk of filewrite as a transaction of the log, and its crashes |
| FreeList, Umalloc | user/umalloc.c: the address-ordered cycle of free blocks |
| PageTable, Sv39, Vm | kernel/vm.c with kernel/kalloc.c: page-table trees over one pool of frames, and the processor's walk over memory |
| ShGrammar, ShSyntax, Sh | user/sh.c: the grammar over tokens, what command lines are and stand for, and the parser over its buffer |
| SleepWakeup, SleepRuns | kernel/proc.c, kernel/sleeplock.c: sleep, wakeup, sched and scheduler over any number of CPUs, for any channel and condition lock |
| ExitWait | kernel/proc.c: fork, exit, reparent and wait |
| VirtQueue, Virtio | kernel/virtio_disk.c against a device that acts at any time |
| Grep | user/grep.c: the matcher and the language of a pattern |
| Clock | kernel/memsys.c: the victim of evict_page |
| DiskSched | kernel/disk_sched.c: the request queue, SSTF, the statistics |
| MlfqProtocol, Mlfq | kernel/proc.c, kernel/trap.c: levels, quanta and boosts over all interleavings, and the code |
| Blocks, Sums, Rings | bytes, words and bits of a block; sums of counters; walks round a ring |

The disk, kalloc's pages, the user heap and request lists are maps from
addresses to contents, so that a stray write is a write to some other address.
Results of sbrk, of copies to and from user memory, of kalloc where it is not
itself modelled, of the RAID mapping and of the killed flag are parameters.
Integers are unbounded except where the code depends on their width: block
words are 32 bits, ring indices 16 bits, file offsets and the size given to
sbrk wrap as in C.

## What the code does that one might not expect

- log_write tests for a full log before it looks for the block in the log, so
  rewriting a logged block panics when the log is exactly full
  (`AbsorbedWriteNeedsSlot`). Operations that keep to their budgets reach that
  state whenever LOGBLOCKS is a multiple of MAXOPBLOCKS (`FullLogIsReachable`).
- commit needs a buffer beyond the pinned ones. LOGBLOCKS equals NBUF, so
  committing a full log ends in "no buffers". With no other user of the cache
  it works exactly when fewer blocks are logged than there are buffers
  (`CommitNeedsFewerThanNbuf`); every buffer that someone else holds is one
  more that is missing.
- morecore passes `nu * sizeof(Header)` to an int: the request is what malloc
  means exactly for sizes up to 0x7fffffe0, and less beyond
  (`SbrkRequestIsExact`, `LargestRequest`).
- uvmdealloc counts the pages to drop in an int, which is their number exactly
  while it fits (`VisitedIsSurplus`).
- A failed uvmalloc restores every translation but keeps page-table pages that
  walk has added; and where the next page is already mapped, it panics or
  reports failure depending on how many frames are free (`Uvmalloc`).
- evict_page's scan never ends if no frame has an owner, and its fallback scan
  is never reached (`Choose`).
- evict_page reads clock_hand into start_index before it takes frame_lock. If
  another eviction moves the hand in between, the scan may end at a worse victim
  or take almost three revolutions (`StaleStartTakesWorse`,
  `StaleStartTakesLonger`, `RaceOnHand`); `StaleStartIsHarmless` says exactly
  when it still finds the best one.
- schedule_sstf leaves the tail pointing at the request it removed if that was
  the last of several. Until the queue has been empty once, every request made
  is then linked behind requests that are gone, and is never scheduled (`Sstf`,
  `LostRequest`, `StaleUntilEmpty`, `MadeWhileStale`).
- clockintr takes no p->lock, and neither does the test after it, so a boost can
  make a process run on with its quantum used up, in two ways
  (`MissedByBoost`, `RunsOnByBoost`). If both ticks of a level-0 quantum fall
  between the last two stores of the boost, its last store erases the expiry
  (`OverrunIsReachable`). And its first store makes the level 0 while the ticks
  counted are those of the old level (`ShortenedIsReachable`).
- yield's comment speaks of keeping current_ticks on a voluntary yield; the
  scheduler zeroes it at every dispatch, so a quantum is never continued.

## Model

| member | source | states |
|---|---|---|
| `Bio.Bcache.constructor` | kernel/bio.c:37-53 | the cache starts empty and coherent, all buffers on the recency list |
| `Bio.Bcache.FindCached` | kernel/bio.c:66-73 | finds the buffer of a block if there is one, else proves there is none |
| `Bio.Bcache.FindUnused` | kernel/bio.c:77-87 | finds the least recently released unreferenced buffer; none exactly if all are referenced |
| `Bio.Bcache.Bget` | kernel/bio.c:58-89 | a hit adds a reference; a miss takes the oldest unreferenced buffer, whose old block is intact on disk; panics exactly if block absent and all buffers referenced |
| `Bio.Bcache.Recycle` | kernel/bio.c:79-82 | a recycled buffer carried nothing that the disk does not have |
| `Bio.Bcache.Bread` | kernel/bio.c:92-103 | returns the latest value stored into the block, whatever happened to its buffers since; waits, with its reference taken, exactly if another process has the block locked |
| `Bio.Bcache.Resume` | kernel/bio.c:69-103 | a bread that has waited returns the latest value of the block it asked for, whatever was done meanwhile |
| `Bio.Bcache.Bwrite` | kernel/bio.c:106-112 | the disk gets the block's latest value; panics exactly for a caller without the lock |
| `Bio.Bcache.Brelse` | kernel/bio.c:116-137 | drops one reference and the lock and keeps the cache coherent, provided a changed block is pinned or written |
| `Bio.Bcache.MoveToFront` | kernel/bio.c:126-134 | the pointer surgery moves exactly this buffer to the front of the list |
| `Bio.Bcache.Bpin` | kernel/bio.c:139-144 | pins are counted and keep the buffer |
| `Bio.Bcache.Bunpin` | kernel/bio.c:146-151 | a pin is given back by the holder; the reference count was positive |
| `Bio.Bcache.DropRef` | kernel/bio.c:123-136 | the rest of brelse needs nothing but its own reference; the count does not underflow; the last one out moves the buffer to the front |
| `Cache.StepKeepsInv` | kernel/bio.c:58-151 | every step of any process keeps: one buffer per block, the latest value in it or on disk, each reference and lock owned by one use |
| `Cache.RunKeepsInv` | kernel/bio.c:58-151 | so it holds in every state of every run from binit |
| `Cache.BreadReturnsLatest` | kernel/bio.c:92-103 | in every run, a process past bread holds, alone, a valid buffer of its block with the contents stored last |
| `Cache.UseGoesOn` | kernel/bio.c:66-137 | in every run, a reference keeps its buffer on its block, bread ends once the lock is free, and brelse can be finished |
| `Cache.LatestIsLastStored` | kernel/bio.c:58-151 | in every run, the latest value of a block is what the last store to one of its buffers put there, or what the device had |
| `Cache.RecycleStaysCoherent` | kernel/bio.c:77-82 | taking a buffer with no references keeps every block's latest value on disk or in its only buffer |
| `Cache.PendingIsHeld` | kernel/bio.c:116-144 | a change that is not on disk sits in a buffer that is pinned or locked |
| `Lru.UnlinkKeepsRest` | kernel/bio.c:128-129 | unlinking a buffer leaves the rest of the ring in order |
| `Lru.PushLinksFront` | kernel/bio.c:130-133 | linking behind the head puts it first |
| `CrashSafety.RecoveryIsRestartable` | kernel/log.c:117-124 | a crash after any block write of recovery does not change what recovery will present |
| `CrashSafety.RecoveriesConverge` | kernel/log.c:117-124 | after any number of interrupted recoveries, one that finishes presents that file system and leaves the log empty |
| `CrashSafety.HeaderReadsBack` | kernel/log.c:87-115 | read_head reads what write_head wrote |
| `CrashSafety.CommitStateOutcome` | kernel/log.c:194-204 | the header write is the commit point: before it the old file system survives, from it on the new one |
| `CrashSafety.CrashAtomicity` | kernel/log.c:66-124 | crash after any block write of commit, then any number of interrupted recoveries: exactly the old or exactly the new home blocks, and an empty log |
| `Log.RedoLog.WriteLog` | kernel/log.c:179-192 | copies the logged blocks' latest values into the log, one device write each, in order |
| `Log.RedoLog.WriteHead` | kernel/log.c:103-115 | one device write: the header with count and block numbers |
| `Log.RedoLog.ReadHead` | kernel/log.c:87-98 | the in-memory header is the one on disk |
| `Log.RedoLog.InstallTrans` | kernel/log.c:66-84 | copies log blocks home, one device write each, in order, unpinning unless recovering |
| `Log.RedoLog.Commit` | kernel/log.c:194-204 | the device goes through exactly the states of CommitStates, or a prefix if it panics; it succeeds if a buffer is spare and fails if none is |
| `Log.RedoLog.RecoverFromLog` | kernel/log.c:117-124 | the device goes through exactly the states of RecoveryStates |
| `Log.RedoLog.CommitNeedsFewerThanNbuf` | kernel/log.c:179-192 | with no other user, commit finds a buffer exactly if fewer blocks are logged than there are buffers |
| `Log.RedoLog.BeginOp` | kernel/log.c:127-143 | one pass is the Begin step of the protocol, or leaves everything as it was |
| `Log.RedoLog.FindSlot` | kernel/log.c:226-229 | the slot of an absorbed block, or the first free one |
| `Log.RedoLog.LogWrite` | kernel/log.c:215-236 | the Write step of the protocol; pins a new block; panics exactly on a full log or outside an operation |
| `Log.RedoLog.EndOp` | kernel/log.c:147-165 | the End step of the protocol, whose panic is unreachable; it must commit exactly if it was the last operation |
| `Log.RedoLog.ReadyToCommit` | kernel/log.c:153-170 | if whoever still holds a buffer only reads it, exactly the logged blocks differ from the disk |
| `Log.RedoLog.FinishOp` | kernel/log.c:167-175 | after commit, disk and latest values agree on all home blocks and the log is open and empty |
| `Log.RedoLog.EndOpAndCommit` | kernel/log.c:147-176 | end_op as a whole: after the last operation the log is empty and every home block on the device is the latest one; before that it only counts down |
| `Log.RedoLog.QuietIsDurable` | kernel/log.c:126-236 | while no operation runs and no commit is under way, the device has the latest contents of every block |
| `CommitRuns.DeviceFollowsCommitStates` | kernel/log.c:66-204 | however other processes read, wait and release between the steps of commit, the device is always in the next state of CommitStates |
| `CommitRuns.CommitIsAtomicAmongReaders` | kernel/log.c:66-204 | a crash at any moment of such a run leaves the old or the new home blocks, the new ones exactly from the header write on |
| `LogProtocol.StepKeepsInv` | kernel/log.c:126-236 | every step keeps: room for all running operations' budgets, distinct blocks, no operation during a commit, and an empty log once no operation runs and no commit is under way |
| `LogProtocol.AppendFindsRoom` | kernel/log.c:215-236 | an operation within its budget always finds room, and end_op never panics |
| `LogProtocol.CommitIsIsolated` | kernel/log.c:147-176 | while committing is set, no operation runs and no other step is possible |
| `LogProtocol.RunKeepsInv` | kernel/log.c:126-236 | over every run, log.lh.n stays within LOGBLOCKS |
| `LogProtocol.LoggedIsCommitted` | kernel/log.c:147-176 | in every run from the empty log, blocks are logged only while an operation runs or a commit is under way, and an end_op starts the commit exactly if no other operation runs |
| `LogProtocol.AbsorbedWriteNeedsSlot` | kernel/log.c:221-229 | a write of a logged block goes through exactly if the log is not full |
| `LogProtocol.FullLogIsReachable` | kernel/log.c:221-222 | k operations within their budgets fill a log of k budgets, and then every rewrite panics |
| `FsModel.InodeRoundTrip` | kernel/fs.c:226-242 | an inode written by iupdate decodes to itself; the other inodes of the block are kept |
| `FsModel.MarkKeepsFs` | kernel/fs.c:77-79 | a bitmap write keeps: owned blocks are distinct and exactly the used ones |
| `FsModel.AssignDirect` | kernel/fs.c:411-418 | a fresh block put into a direct or indirect pointer becomes owned by that slot |
| `FsModel.AssignEntry` | kernel/fs.c:432-438 | a fresh block put into the indirect block becomes owned by that slot |
| `FsModel.DetachDirect` | kernel/fs.c:455-460 | a detached block was used and belonged to nobody else |
| `FsModel.DetachIndirect` | kernel/fs.c:462-472 | the indirect block and all it points to become nobody's at once |
| `FsModel.DataWrite` | kernel/fs.c:543-550 | writing a data block changes no ownership and no other file |
| `FsModel.TruncatedUsed` | kernel/fs.c:455-472 | clearing an inode's pointers frees exactly its blocks |
| `Fs.FileSystem.Balloc` | kernel/fs.c:66-89 | the lowest free block, marked and zeroed; 0 exactly when the disk is full |
| `Fs.FileSystem.Bfree` | kernel/fs.c:92-106 | clears one bit; panics exactly on a free block |
| `Fs.FileSystem.Bmap` | kernel/fs.c:405-444 | the n-th block, allocated and zeroed if missing; keeps ownership and every file's contents; 0 only on a full disk; panics exactly from block 268 on |
| `Fs.FileSystem.Iupdate` | kernel/fs.c:226-242 | the inode on disk is the one in memory |
| `Fs.FileSystem.WriteChunk` | kernel/fs.c:539-551 | one round of writei extends the written part by its bytes |
| `Fs.FileSystem.StartsInMappedBlock` | kernel/fs.c:534-540 | a write that starts inside a block starts in an allocated one |
| `Fs.FileSystem.Writei` | kernel/fs.c:528-562 | replaces exactly off..off+r of the file, extends it if needed, changes no other file; short only on a copy fault or a full disk; logs at most 2k+4 blocks for k blocks of data |
| `Fs.FileSystem.Readi` | kernel/fs.c:494-519 | returns exactly the requested bytes clipped to the size and allocates nothing |
| `Fs.FileSystem.Itrunc` | kernel/fs.c:448-476 | frees exactly the blocks of the inode, each once; the "freeing free block" panic is unreachable; other files unchanged |
| `Fs.FileSystem.WriteOp` | kernel/file.c:160-165 | one transaction of filewrite logs at most MAXOPBLOCKS blocks |
| `Fs.FileSystem.Filewrite` | kernel/file.c:148-173 | the chunks together are one write of the bytes reported; no transaction exceeds MAXOPBLOCKS |
| `DiskFormat.ContentIsOnDisk` | kernel/fs.h:32-45 | the contents of a file are its bytes on the device: size and block addresses at their byte offsets in the inode, the indirect block, and the data blocks in order |
| `DiskFormat.UsedIsOnDisk` | kernel/fs.h:47-51 | a block is used exactly if its bit of the free map is set, counted from the lowest bit of the first byte |
| `Fs.LogBound` | kernel/file.c:149-153 | data blocks, their bitmap blocks, the indirect block and its bitmap block and the inode: at most 2k+4 |
| `Durable.SameFromInodesOn` | kernel/fs.c:405-519 | files and ownership depend on no block below the inodes |
| `Durable.RecoveredIsOldOrNew` | kernel/log.c:117-204 | after a crash anywhere in a commit and any recoveries, the file system is consistent and all files are as before, or all as after |
| `Durable.WriteChunkDurably` | kernel/file.c:160-165 | a crash anywhere in the commit of one chunk leaves every file as before it, or this file with exactly the bytes written and all others as before |
| `FreeList.FreedOrdered` | user/umalloc.c:30-42 | free keeps the list in address order, without adjacent blocks |
| `FreeList.FreedUnits` | user/umalloc.c:33-42 | free neither loses nor invents a unit |
| `FreeList.FreeMemLinks` | user/umalloc.c:33-42 | the pointer writes of free leave exactly that list as one cycle |
| `FreeList.TakenOrdered` | user/umalloc.c:76-82 | cutting a block keeps the list ordered and not adjacent |
| `FreeList.TakenUnits` | user/umalloc.c:76-82 | cutting neither loses nor invents a unit |
| `FreeList.TakeMemLinks` | user/umalloc.c:76-82 | the pointer writes of malloc leave exactly that list as one cycle |
| `Umalloc.SbrkRequestIsExact` | user/umalloc.c:52-54 | sbrk receives the size morecore hands out exactly for requests up to 0x7fffffe0 bytes, and less beyond |
| `Umalloc.LargestRequest` | user/umalloc.c:52-57 | for the largest request sbrk hands out 16 bytes and morecore records 0x10000001 units |
| `Umalloc.SearchStopsAtPredecessor` | user/umalloc.c:30-32 | the exit tests of free's loop hold together at the predecessor and nowhere else |
| `Umalloc.FreeKeepsHeap` | user/umalloc.c:24-44 | free keeps the heap whole: free and allocated blocks are disjoint and together are all units from sbrk |
| `Umalloc.GrowKeepsHeap` | user/umalloc.c:46-61 | memory from sbrk joins the heap as a block of its own |
| `Umalloc.TakeKeepsHeap` | user/umalloc.c:75-85 | malloc's cut keeps the heap whole and overlaps no allocated block |
| `Umalloc.Heap.FindPredecessor` | user/umalloc.c:30-32 | the loop ends, at the block the freed one goes after |
| `Umalloc.Heap.Free` | user/umalloc.c:24-44 | the block leaves the allocated ones and lies in one free block; nothing still allocated is written |
| `Umalloc.Heap.Morecore` | user/umalloc.c:46-61 | the new memory is in one free block; failure changes nothing |
| `Umalloc.Heap.Search` | user/umalloc.c:74-89 | the loop ends with a block of exactly the size asked for, or sbrk failed and no free block was large enough |
| `Umalloc.Heap.Malloc` | user/umalloc.c:63-90 | the block has room for the bytes asked for and less than a unit more; at most one morecore and only if no free block fits; nothing allocated is written |
| `PageTable.PteRoundTrip` | kernel/vm.c:168 | frame and permission bits are read back from a PTE |
| `Sv39.ProcessorSees` | kernel/riscv.h:369-384 | the processor's walk over memory, by nine bits of the address per level from the root down, ends with the entry of the page in the tree, or faults exactly if there is none |
| `Vm.AddressSpace.ProcessorSeesPtes` | kernel/vm.c:98-116 | so it does in every state of an address space, for every 39-bit address |
| `PageTable.StoredPte` | kernel/vm.c:168 | storing a PTE changes the translation of its own page only |
| `PageTable.AttachStep` | kernel/vm.c:109-112 | hanging a zeroed page into the tree changes no translation |
| `PageTable.DropStep` | kernel/vm.c:266-278 | taking an empty page-table page out of the tree changes no translation |
| `Vm.AddressSpace.Kalloc` | kernel/kalloc.c:68-82 | takes the head of the free list; 0 exactly if it is empty; no translation changes |
| `Vm.AddressSpace.Kfree` | kernel/kalloc.c:46-63 | the held frame is the head of the free list; no translation changes |
| `Vm.AddressSpace.Walk` | kernel/vm.c:98-116 | finds the entry that the processor finds for the address; allocating page-table pages changes no translation and no data; panics exactly from MAXVA on |
| `Vm.AddressSpace.Mappages` | kernel/vm.c:146-175 | maps exactly the pages done, in order; if it stops, it panics exactly at a mapped page, at MAXVA or for size 0, and otherwise there is no memory; changes nothing else |
| `Vm.AddressSpace.Uvmunmap` | kernel/vm.c:193-213 | unmaps exactly the pages given and frees exactly their frames if asked to |
| `Vm.AddressSpace.Uvmdealloc` | kernel/vm.c:247-259 | unmaps and frees exactly the pages that its int page count covers; panics exactly if they reach MAXVA |
| `Vm.VisitedIsSurplus` | kernel/vm.c:253-255 | these are the pages between the two sizes exactly if their number fits an int or the lost bits come back |
| `Vm.AddressSpace.Uvmalloc` | kernel/vm.c:217-241 | maps a zeroed frame at each new page exactly if no page is blocked and the free frames cover the pages and the missing page-table pages; panics exactly if they last to the first page that is mapped or beyond MAXVA; on failure every translation, user page and frame role but for new page-table pages is as before; on success the processor finds the asked permissions at every new page, and a process that could reach every byte below the old size can reach every byte below the new one |
| `Vm.AddressSpace.Freewalk` | kernel/vm.c:263-279 | frees exactly the page-table pages of the subtree; panics exactly if a leaf is still mapped there |
| `Vm.AddressSpace.Uvmfree` | kernel/vm.c:283-289 | every page-table and user frame is free again, once, and no other frame is touched; panics exactly if a page beyond the size is mapped |
| `ShGrammar.Line` | user/sh.c:350-365 | the grammar ends on every input and builds well-formed trees only |
| `ShGrammar.Parse` | user/sh.c:333-348 | what is accepted is a well-formed tree |
| `ShGrammar.LexPrint` | user/sh.c:271-314 | the tokens of a printed tree |
| `ShGrammar.LineOfToks` | user/sh.c:350-452 | parsing the tokens of a tree gives back the tree and stops where they end |
| `ShGrammar.RoundTrip` | user/sh.c:333-452 | parsecmd of the parenthesising printer's output is the tree, for every well-formed tree |
| `ShGrammar.ParseIsStable` | user/sh.c:333-452 | printing what was parsed and parsing it again changes nothing |
| `ShSyntax.LineOfWritten` | user/sh.c:350-452 | every command line, with redirections anywhere among the arguments and parentheses wherever allowed, is parsed as the tree it stands for |
| `ShSyntax.LineWritten` | user/sh.c:350-452 | whatever is accepted was written so: the tokens spell out a command line that stands for the tree |
| `ShSyntax.ParseIffWritten` | user/sh.c:333-452 | parsecmd accepts exactly the texts that spell a command line, with any blanks, and gives them the tree it stands for |
| `ShSyntax.NothingLost` | user/sh.c:333-452 | the words, redirections, pipes, lists and backgrounds of an accepted text's tree are those of its tokens, each as often |
| `ShSyntax.LayoutRoundTrip` | user/sh.c:333-452 | a printer that writes parentheses only where needed, mixes arguments and redirections in any way and uses any blanks is undone by parsecmd |
| `ShSyntax.FewestParentheses` | user/sh.c:405-419 | no way of writing a tree has fewer parentheses than that printer's |
| `ShSyntax.LexOfSpelling` | user/sh.c:271-314 | tokens with blanks between them, none needed except where two would run together, are read back |
| `ShSyntax.SpellingOfLex` | user/sh.c:271-314 | every text is a spelling of its tokens |
| `Sh.Parser.SkipSpaces` | user/sh.c:278-279 | skips blanks and no token |
| `Sh.Parser.Peek` | user/sh.c:316-326 | says whether the next token starts with one of the characters; consumes blanks only |
| `Sh.Parser.GetToken` | user/sh.c:271-314 | returns and consumes exactly the next token; a word is a maximal run of word characters |
| `Sh.Parser.ParseRedirs` | user/sh.c:380-403 | finds what the grammar finds |
| `Sh.Parser.ParseExec` | user/sh.c:421-452 | finds what the grammar finds, with redirections before, between and after the arguments, too many arguments and stray symbols included |
| `Sh.Parser.ParseBlock` | user/sh.c:405-419 | finds what the grammar finds between parentheses, or panics |
| `Sh.Parser.ParsePipe` | user/sh.c:367-378 | finds what the grammar finds |
| `Sh.Parser.ParseLine` | user/sh.c:350-365 | finds what the grammar finds |
| `Sh.NulTerminate` | user/sh.c:455-499 | writes a NUL at the end of every word and nowhere else |
| `Sh.EndsAreOutside` | user/sh.c:455-499 | no NUL falls inside a word |
| `Sh.TreeReadsBack` | user/sh.c:455-499 | after the NULs every word pointer reads exactly its token |
| `Sh.ParseCmd` | user/sh.c:333-348 | the tree, read as C strings out of the buffer it leaves behind, is the grammar's, with the words and operators of the line, each as often; a syntax error exactly when the grammar has one |
| `SleepWakeup.StepKeepsInv` | kernel/proc.c:467-667 | every step by any CPU keeps lock ownership, placement, states, sleep-lock ownership and "no wakeup lost" |
| `SleepWakeup.RunKeepsInv` | kernel/proc.c:467-667 | so it holds in every reachable state |
| `SleepWakeup.WakeupReachesAll` | kernel/proc.c:622-667 | for every channel and condition lock: when a wakeup(chan) under lk ends, in a process or in an interrupt handler, nobody who let go of lk in sleep(chan, lk) waits any more |
| `SleepWakeup.WaiterIsAhead` | kernel/proc.c:653-667 | while such a wakeup is under way, whoever waits is still ahead of it |
| `SleepWakeup.NoLostWakeup` | kernel/sleeplock.c:21-41 | a process that waits for a sleep lock waits for a held one, or has the releaser's wakeup still ahead; with the spin lock free, the lock is held |
| `SleepWakeup.MutualExclusion` | kernel/sleeplock.c:21-41 | a sleep lock never has two holders |
| `SleepWakeup.OneCpuEach` | kernel/proc.c:486-515 | no process runs on two CPUs |
| `SleepWakeup.RunnableIsOff` | kernel/proc.c:492-505 | the scheduler only switches to a process whose context is saved |
| `SleepWakeup.SchedNeverPanics` | kernel/proc.c:531-549 | p->lock held, no other spin lock held, state not RUNNING |
| `SleepWakeup.AcquireNeverPanics` | kernel/spinlock.c:21-43 | no CPU acquires a lock that it holds |
| `SleepRuns.SleepsUntilReached` | kernel/proc.c:622-667 | in every run, a process leaves sleep(chan, lk) only after a wakeup(chan), or a kill, has reached it there |
| `SleepRuns.SleepCallWaits` | kernel/proc.c:622-650 | so whoever calls sleep is not back in its section before that |
| `SleepRuns.WakeupCallWakes` | kernel/proc.c:653-667 | when a wakeup(chan) called under lk is back, nobody waits in sleep(chan, lk); until then it is in its scan |
| `SleepRuns.EveryStepMoves` | kernel/proc.c:467-693 | no step leaves the state as it was |
| `SleepRuns.ReachedIsAwake` | kernel/proc.c:653-693 | a wakeup of its channel or a kill that reaches a process leaves it awake |
| `SleepRuns.TakesFreeLock` | kernel/sleeplock.c:21-31 | acquiresleep takes a lock that no process holds, and then its own process holds it |
| `SleepRuns.LockIsHandedOver` | kernel/sleeplock.c:21-41 | a run in which a process sleeps for a lock, its holder releases it, and the sleeper gets it |
| `ExitWait.StepKeepsInv` | kernel/proc.c:302-458 | every step of fork, exit, reparent, wait and kill keeps the invariant; a slot is USED only while somebody's kfork fills it |
| `ExitWait.RunKeepsInv` | kernel/proc.c:302-458 | so it holds in every reachable state |
| `ExitWait.ParentsAreAlive` | kernel/proc.c:353-409 | a parent pointer never names an unused slot or a zombie |
| `ExitWait.NoStrandedZombie` | kernel/proc.c:369-409 | every zombie has a live parent, which is awake whenever wait_lock is free |
| `ExitWait.ReapedOnce` | kernel/proc.c:413-458 | no pid is reaped twice, only exited ones are, and every exited one is a zombie or reaped |
| `ExitWait.ReapsOwnParkedChild` | kernel/proc.c:421-442 | what kwait frees is the caller's own child, off its kernel stack |
| `ExitWait.WaitDecides` | kernel/proc.c:420-455 | kwait reports no children exactly if there are none, and sleeps only beside living ones |
| `ExitWait.SleeperWakes` | kernel/proc.c:356-398 | a process asleep in kwait is woken exactly by a child's exit, an exit that gives a child to init, or a kill |
| `ExitWait.UsedIsBeingForked` | kernel/proc.c:302-345 | a USED slot is being filled by exactly one kfork |
| `ExitWait.ForkedChildRuns` | kernel/proc.c:335-345 | in every run, kfork's last step leaves a child that can run, is the caller's, and has a pid that no slot had before; nothing else changes |
| `ExitWait.ChildIsReaped` | kernel/proc.c:302-458 | a run in which a parent sleeps in kwait, its child exits, and it reaps the child |
| `VirtQueue.GiveDesc` | kernel/virtio_disk.c:169-182 | freeing a held descriptor disturbs no chain |
| `VirtQueue.MakeChain` | kernel/virtio_disk.c:238-269 | three held descriptors become one chain; every descriptor stays free, held or in one chain |
| `VirtQueue.FormattedIsRead` | kernel/virtio_disk.c:238-265 | a device that follows F_NEXT, writes only through F_WRITE and knows only descriptors reads the chain as the request it was made for |
| `VirtQueue.BreakChain` | kernel/virtio_disk.c:288-289 | a chain dissolves into its own three descriptors |
| `VirtQueue.RingWrite` | kernel/virtio_disk.c:272 | writing the next slot overwrites no unread entry |
| `VirtQueue.WrapSlot` | kernel/virtio_disk.c:272-314 | 16-bit indices that wrap still name the right slot |
| `Virtio.Disk.DeviceTake` | kernel/virtio_disk.c:272-277 | the device takes the published chains in order |
| `Virtio.Disk.CarryOut` | kernel/virtio_disk.c:238-265 | what the descriptors, their flags and lengths tell the device is the request made: a block it may write only for a read; only its status byte changes in driver memory |
| `Virtio.Disk.PutUsed` | kernel/virtio_disk.c:312-324 | reporting a completion, at any time after carrying it out, overwrites no unread one |
| `Virtio.Disk.AllocDesc` | kernel/virtio_disk.c:156-166 | takes a free descriptor; fails exactly if there is none |
| `Virtio.Disk.FreeDesc` | kernel/virtio_disk.c:169-182 | neither panic happens |
| `Virtio.Disk.Alloc3Desc` | kernel/virtio_disk.c:201-213 | succeeds exactly with three free descriptors; failure changes nothing |
| `Virtio.Disk.Start` | kernel/virtio_disk.c:215-277 | queues the request as a chain of three, whatever the device does between its stores; the process now waits for that chain |
| `Virtio.Disk.Publish` | kernel/virtio_disk.c:277 | the chain becomes visible complete |
| `Virtio.Disk.ReadUsed` | kernel/virtio_disk.c:312-324 | a completion releases exactly the buffer of its own request |
| `Virtio.Disk.Intr` | kernel/virtio_disk.c:294-327 | ends however fast the device is, reads all completions, panics only on a bad status |
| `Virtio.Disk.FreeChain` | kernel/virtio_disk.c:185-197 | frees exactly the descriptors of the chain, without a panic |
| `Virtio.Disk.WaitsForOwn` | kernel/virtio_disk.c:282-286 | whatever sequence of requests, interrupts and device steps: a waiting process finds b->disk at 0 exactly if its own request was reported, and no two wait for the same chain or buffer |
| `Virtio.Disk.Finish` | kernel/virtio_disk.c:284-289 | a waiting process that finds b->disk at 0 needs nothing else to free its chain, all three descriptors and no other |
| `Grep.MatchHere` | user/grep.c:84-96 | true exactly if a prefix of the text is in the pattern's language, the whole text under a final $ |
| `Grep.MatchStar` | user/grep.c:98-106 | true exactly if some number of accepted characters is followed by a match of the rest |
| `Grep.Match` | user/grep.c:72-82 | true exactly if some substring is in the language, one starting at 0 under ^ |
| `Grep.PatternOfRender` | user/grep.c:84-96 | every pattern that can be written is read back from what is written |
| `Grep.RenderOfPattern` | user/grep.c:84-96 | every string is a way of writing one such pattern |
| `Clock.FrameTable.Turn` | kernel/memsys.c:189-212 | one turn keeps the best candidate so far and clears at most one reference bit |
| `Clock.FrameTable.Choose` | kernel/memsys.c:180-233 | for any start_index: ends at the best clear frame before it if there is one, otherwise at the best of the revolutions from there, after an exact number of turns, within the way to start_index and two revolutions; without an owned frame, never ends |
| `Clock.StaleStartIsHarmless` | kernel/memsys.c:185-212 | the victim is the first of the highest level in clock order exactly if the frames before start_index do no harm; always if start_index is the hand |
| `Clock.StaleStartTakesWorse` | kernel/memsys.c:185-212 | a table where a stale start_index takes a frame of level 0 before a clear one of level 2 |
| `Clock.StaleStartTakesLonger` | kernel/memsys.c:185-212 | a table where it takes five turns for two frames |
| `Clock.RaceOnHand` | kernel/memsys.c:185-202 | two evictions that bring that about |
| `Clock.LastLevelIsBest` | kernel/memsys.c:199-202 | stopping early at the last level misses nothing |
| `DiskSched.Scheduler.Add` | kernel/disk_sched.c:197-234 | the request is queued last exactly if the tail was the last request; otherwise it is lost |
| `DiskSched.Scheduler.Fcfs` | kernel/disk_sched.c:237-249 | takes the oldest request; the tail is right afterwards exactly if it was or the queue is empty |
| `DiskSched.Scheduler.FindShortest` | kernel/disk_sched.c:263-284 | the minimum by latency, priority and position, and its predecessor |
| `DiskSched.ShortestIsLeast` | kernel/disk_sched.c:263-284 | that is exactly the least request by distance from its disk's head, then priority, then position |
| `DiskSched.Scheduler.Sstf` | kernel/disk_sched.c:252-299 | takes that minimum and leaves exactly the others in order; the tail is right afterwards exactly if the queue is empty, or it was right and not the last request was taken |
| `DiskSched.StaleUntilEmpty` | kernel/disk_sched.c:197-299 | over every sequence of calls, a stale tail stays stale until the queue has been empty |
| `DiskSched.MadeWhileStale` | kernel/disk_sched.c:221-231 | a request made in that time is in no later queue |
| `DiskSched.LostForGood` | kernel/disk_sched.c:197-299 | a request that is not in the queue never comes back into it |
| `DiskSched.LostRequest` | kernel/disk_sched.c:286-298 | three calls after which a request is in memory and not in the queue |
| `DiskSched.Scheduler.Process` | kernel/disk_sched.c:314-346 | total latency stays the delay per operation plus the travel of all heads; reads count as reads and writes as writes |
| `DiskSched.StatsStep` | kernel/disk_sched.c:186-194 | one request adds its head's movement to the total travel |
| `MlfqProtocol.StepKeepsInv` | kernel/trap.c:169-199 | every step keeps the invariant, with the stores of mlfq_boost between the statements of clockintr |
| `MlfqProtocol.LevelIsDemotions` | kernel/proc.c:33-62 | in every run, a level is below MLFQ_LEVELS and counts the demotions since a boost last reached the process; every tick is charged to one level |
| `MlfqProtocol.FewDemotions` | kernel/proc.c:560-573 | in every run and every part of its history between two boosts, a process is demoted at most three times |
| `MlfqProtocol.LevelChangesAreLogged` | kernel/proc.c:48-62 | in every run, a level changes only by a boost, a creation, or one demotion in yield; the range check of clockintr never fires |
| `MlfqProtocol.DemotedExactlyIf` | kernel/proc.c:560-573 | in every run, yield demotes exactly if the slice has expired, fewer than three demotions have followed the last boost, and fewer system calls were made since the dispatch than ticks taken since it or a boost |
| `MlfqProtocol.StatisticsAreExact` | kernel/sysproc.c:230-240 | in every run, the numbers getmlfqinfo reports are the dispatches, system calls and ticks since the process was created, each tick at the level it was charged to |
| `MlfqProtocol.InsideQuantum` | kernel/trap.c:81-86 | in every run, a process that goes on is inside its quantum; or at level 0 with exactly its quantum used up; or at level 0 between the first two stores of a boost, with fewer ticks than the longest quantum |
| `MlfqProtocol.MissedByBoost` | kernel/trap.c:178-184 | the test after a tick overlooks a used-up quantum exactly in two interleavings with a boost |
| `MlfqProtocol.RunsOnByBoost` | kernel/trap.c:81-86 | a process starts to run on with a used-up quantum exactly if the test overlooked it or the first store of a boost comes while it runs |
| `MlfqProtocol.OverrunIsReachable` | kernel/proc.c:56-58 | a run of the first kind: the last store hides the expiry |
| `MlfqProtocol.ShortenedIsReachable` | kernel/proc.c:56-58 | a run of the second kind: three ticks of level 1, then level 0 |
| `Mlfq.Scheduler.Boost` | kernel/proc.c:48-62 | every present process is at level 0 with a fresh quantum; no other is touched; a run of the protocol |
| `Mlfq.Scheduler.YieldCpu` | kernel/proc.c:552-581 | one demotion exactly at an expired slice with fewer system calls than ticks, above the last level |
| `Mlfq.Scheduler.TimerTrap` | kernel/trap.c:169-199 | undisturbed, a process goes on only inside its quantum; the tick is charged to one level; yields exactly at the end of a quantum; a run of the protocol |
| `Mlfq.Scheduler.Schedule` | kernel/proc.c:486-515 | a runnable process of the lowest level number, first in round-robin order; none exactly if nothing is runnable |
| `Mlfq.Scheduler.SetState` | kernel/proc.c:199-215 | sleep, wakeup, exit and freeproc keep levels and quanta; a zombie's slot becomes unused |
| `Mlfq.Scheduler.Allocate` | kernel/proc.c:33-45 | a new process, in a reused slot too, starts at level 0 with clean counters |

## Left out

- Swapping of page contents (kernel/memsys.c:260-400): it moves no data, only statistics.
- RAID mappings and reconstruction (kernel/disk_sched.c:74-183): the mapping's result is a parameter of `Add`.
- Device registers, interrupts, assembly, boot, memory fences: acquire and release are atomic steps.
- System-call argument handling, exec, pipes, the console, directories and path names: would add easier members.
- uvmcopy, copyin, copyout and vmfault (kernel/vm.c:297-506): loops over walk and mappages.
- Liveness: that a runnable process is eventually run, or a spinning acquire eventually succeeds.
- Round-robin fairness inside a level: the scan restarts at the process just run.
- Commit: is stated for log and logged blocks that nobody has locked; that readers who have them make it wait and change nothing is CommitIsAtomicAmongReaders.
- Malloc: if no free block fits, takes sbrk's outcome as given only for requests up to 0x7fffffe0 bytes, where sbrk receives the size meant.
- Uvmdealloc: is for sizes that PGROUNDUP can round up in 64 bits.
- SleepWakeup.WakeupReachesAll: a process holds at most one condition lock at a time.
- Choose: takes a bound on the number of turns, so that a scan that never ends can be described; the code has no such bound. Owners' levels are those at the start of the scan; the code reads them without p->lock, so a boost or a demotion can change one between two turns.
- Uvmalloc: is for old sizes that PGROUNDUP can round up in 64 bits.
- Add: the removed request stays allocated in the model; in the kernel its page may have been freed when the stale tail is written.
- Process: counters are unbounded; the 64-bit ones of the kernel wrap.
- ExitWait.StepKeepsInv: pids are unbounded; nextpid would wrap after 2^31 forks.
- MlfqProtocol.StepKeepsInv: a statement is one step; loads and stores inside `current_ticks++` are not told apart.
