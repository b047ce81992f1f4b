# A verified model of the boiOS kernel core

boiOS is a 32-bit teaching kernel. This project models its memory stack as the C code has it,
step by step on one physical memory of 2^32 bytes, and proves what the layers promise each other.

* **Block heap** (`Heap.dfy`, `HeapRuns.dfy`): a first-fit allocator over a table of 25600 bytes at
  0x7E00. The table is the chain encoding of a finite map from first block to length, and nothing else.
* **Two-level paging** (`Paging.dfy`, `PagingCode.dfy`): directories and tables are heap blocks; tagged
  pointers are recovered by masking because the blocks are page-aligned. The two levels refine a flat map
  from page to entry.
* **Process memory** (`ProcessMemory.dfy`, `Process.dfy`, `Loader.dfy`, `LoadProcess.dfy`, `Placement.dfy`,
  `Task.dfy`): the allocations array, the heap table and the page tables of a process agree after every
  operation, and a newly loaded program starts in agreement exactly when its segments are fair.
* **Whole system** (`System.dfy`, `SystemRun.dfy`): any number of loads, exits, allocations, frees, string
  copies, argument injections and user-mode stores, by up to twelve processes over one heap and one list of
  tasks. As long as programs are well placed, allocations meet the heap's guard, argument lists lie in
  allocations of their sender and the link writes of exits go right, no process can write to the memory, the
  records or the page tables of another, and calls about one process leave every byte in the runs of the others
  but the links of their task records. Runs of no process stay as they are, too, but for a stray link of a first
  task's exit. Order and back links of the tasks follow from the loads and exits; as long as only the last listed
  process exits, every exit goes right. (Reading is not confined: every page is present for every process.)
* **Task list** (`TaskList.dfy`, `TaskLinks.dfy`, `StaleTask.dfy`): the doubly linked list as it lies in memory,
  with the next link of a record at byte 52 and the back link at byte 56; what each link write does to the order
  and to the memory of processes, when an exit goes right, and a run at whose end it would not.
* **From the shell to argv** (`CommandLine.dfy`, `Command.dfy`, `Arguments.dfy`): `strtok`, the list of
  argument records that `boios_parse_command` builds in the shell's own allocations, and argc and argv in
  those of the program it starts.
* **Around it**: the sector stream and the FAT16 chain reader (`Disk.dfy`), the path parser with its heap
  records (`PathParser.dfy`) and the keyboard ring with 32-bit counters (`Keyboard.dfy`).

The source changes memory in place, so the operations are methods on the byte array and on objects with
fields; each is proved against a specification of the old and new state, and the properties of that
specification are lemmas.

## Where the code and its promise part

Each of these is stated as the exact condition under which the code keeps the promise, most with an input
on which it does not.

* When nothing fits and the last block is free, the heap scan answers the start of the trailing free run, and
  the allocation writes past the table (`HeapTable.MallocIffGuard`, `HeapTable.MallocOverruns`). An empty heap
  asked for 25601 blocks is such a case (`HeapTable.OneBlockTooMany`).
* Freeing the null pointer clears bytes below the table from entry -4096 on; the table survives exactly when a
  byte there ends the walk or block 0 is free (`HeapTable.FreeNull`, and `HeapTable.NullFreesBlockZero` for a
  memory where it does not). After the first such free it always does.
* A lookup of an unaligned address answers the entry of page 0 (`Paging.Get`).
* A segment reaches its bytes exactly when its address and file offset agree modulo 4096
  (`Loader.SegmentTranslates`, `Loader.FourBytesOff`).
* The pages of a segment lie in the image of its program exactly when its bytes lie in the blocks of the file
  (`Placement.ImageExactly`). They lie in the program's own image and stack exactly when its bytes are held by
  the two, so that a segment which reaches past the image is harmless only if the stack lies next to it
  (`Placement.OwnExactly`). Together with the pages above the pool base this is the exact condition for record,
  heap and tables of a loaded program to agree, on which isolation rests (`Placement.AgreesExactly`). A program
  with one page in its file and a second page of zero-initialised memory meets it where its stack follows its
  image, as in an empty heap, and does not where the stack lies further on (`Placement.SpilledPage`). A writable
  segment is fair for every place of image and stack exactly when it is well placed (`Placement.FairEverywhere`).
* A FAT16 read does not shorten its first piece by the offset inside the cluster. It delivers the slice of the
  file on every disk exactly when each byte that crosses a cluster boundary finds the next cluster of its chain
  behind it (`Fat16.SliceExactly`, with `Fat16.FragmentedRead` for a file in clusters 2 and 4). The address at
  which a FAT entry is sought is a product where the layout has a sum (`Fat16.LookUpIsElsewhere`,
  `Fat16.EntryOfClusterTwo`). The walk along a chain stops at the marks of 12-bit tables; the end marks of FAT16,
  0xFFF8 to 0xFFFF, are followed as if they were clusters (`Fat16.EndMarkFollowed`).
* Removing a task leaves the forward order without it exactly when its back link leads to the task before it or
  does not matter (`TaskList.CutExactly`). A removal never repairs the back link of the task behind, and spoils no
  other (`TaskList.LinkSpoils`, `TaskList.LinksStay`), so after a removal from the middle, removing the successor
  does not unlink it (`TaskList.RemoveTwice`, `TaskList.ThreeTasks`).
* The record that such a back link leads to is freed, and its block may be in use again. A link write leaves a
  process alone exactly when it meets its task record, writes the word that was there, or meets no page of it
  (`TaskLinks.LinkExactly`; `TaskLinks.TailExactly` for the tail in `task_new`). An exit leaves order and other
  processes right exactly under a condition that can be read off memory before the call
  (`SystemRun.ExitFineExactly`). Six loads and three exits, each of them allowed and made by the program that the
  kernel has running, lead to a back link into a page table (`StaleTask.StaleLink`), and the exit that follows it
  takes a page from another program (`StaleTask.StaleExit`).
* The process record is never freed (`SystemRun.Terminate`), and neither is the path that opening the file parsed
  (`LoadProcess.OpenFile`), so every program leaves blocks of no process behind.
* After a push onto 1024 characters or a backspace on none, buffer and counters of the keyboard stand for no
  queue at all (`Keyboard.Buffer.Push`, `Keyboard.Buffer.Backspace`, `Keyboard.OneTooMany`,
  `Keyboard.EraseFirst`).
* `strtok` keeps its saved position exactly when a command is abandoned for lack of memory or slots
  (`Command.ParseCommand`).
* Printing a parsed path gives it back exactly when it has no empty part (`PathText.PrintParse`,
  `PathText.DoubledSlash`).

## Model

| member | source | states |
|---|---|---|
| `HeapTable.TableOfRuns` | src/memory/heap/heap.c:73-107 | the table bytes are a function of the set of live runs |
| `HeapTable.RunsOfTable` | src/memory/heap/heap.h:11-15 | and determine it: two run maps with the same table are equal, so the chain bits lose nothing |
| `HeapTable.MarkEncodes` | src/memory/heap/heap.c:73-87 | writing a chain where a run fits turns the encoding of the live runs into that of the live runs and the new one |
| `HeapTable.ChainOfRun` | src/memory/heap/heap.c:97-107 | following HAS_NEXT from any entry of a live run ends exactly at the end of that run |
| `HeapTable.FreeEncodes` | src/memory/heap/heap.c:97-107 | freeing the start of a live run removes that run and no other |
| `HeapTable.TakenFirst` | src/memory/heap/heap.c:31-67 | no fitting run starts below a returned pointer |
| `HeapTable.MallocIffGuard` | src/memory/heap/heap.c:25-67 | an allocation is null without change or one new run of the rounded size, if and only if a fitting run exists or the last block is taken |
| `HeapTable.MallocOverruns` | src/memory/heap/heap.c:63-87 | without that guard every nonempty request marks the byte behind the table and leaves bytes that encode no run map |
| `HeapTable.OneBlockTooMany` | src/memory/heap/heap.c:63-87 | an empty heap that is asked for 25601 blocks no longer encodes any run map |
| `HeapTable.FreeBelow` | src/memory/heap/heap.c:89-107 | a free that starts below the table keeps an encoding if and only if a byte below ends the walk or block 0 is free |
| `HeapTable.FreeNull` | src/memory/heap/heap.c:89-107 | the same for the null pointer, with the bytes it can change, and that one such free makes all later ones harmless |
| `HeapTable.NullFreesBlockZero` | src/memory/heap/heap.c:89-107 | a memory in which freeing the null pointer frees the block in use at the start of the pool |
| `HeapTable.ScanBytes` | src/memory/heap/heap.c:44-67 | where n table bytes in a row have no type bits, the scan answers the first such place |
| `HeapTable.ScanFits` | src/memory/heap/heap.c:44-67 | with a marked last entry the scan answers such a place or -ENOMEM |
| `HeapTable.MarkedBytes` | src/memory/heap/heap.c:73-87 | byte by byte: 0x01 in every entry of the run, 0x40 in the first, 0x80 in all but the last, and no other byte |
| `HeapTable.FreedBytes` | src/memory/heap/heap.c:97-107 | byte by byte: zero up to the first entry without 0x80, and no other byte |
| `HeapTable.MallocBytes` | src/memory/heap/heap.c:25-87 | where a request of so many bytes fits, the lowest entries that hold it in pages of 4096 are marked and the pointer is 0x01000000 + 4096 times the first of them |
| `HeapTable.MallocFits` | src/memory/heap/heap.c:25-87 | with a marked last entry an allocation is null without change, or its blocks were unmarked entries of the table |
| `Kheap.Machine.HeapCreate` | src/memory/heap/heap.c:3-23 | rejects misaligned or mismatched pools without change; otherwise the table is all zero and encodes no runs |
| `Kheap.Machine.GetStartBlock` | src/memory/heap/heap.c:44-67 | the smallest start of enough free blocks; else the start of the trailing free run; else -ENOMEM |
| `Kheap.Machine.MallocBlocks` | src/memory/heap/heap.c:31-42 | null without change, or the address of the scan's block with its chain marked |
| `Kheap.Machine.MarkBlocksTaken` | src/memory/heap/heap.c:73-87 | exactly the run's entries carry TAKEN, IS_FIRST on the first, HAS_NEXT on all but the last |
| `Kheap.Machine.MarkBlocksFree` | src/memory/heap/heap.c:97-107 | exactly the entries up to the end of the chain become zero, for any start, also below the table |
| `Kheap.Machine.Malloc` | src/memory/heap/heap.c:25-42 | under the guard: null if and only if nothing fits, otherwise the first fit becomes a run of the rounded size, and only table bytes change |
| `Kheap.Machine.Free` | src/memory/heap/heap.c:89-107 | the start of a live run: that run is gone and only table bytes change; null: the exact clearing below the table |
| `Kheap.Machine.Kzalloc` | src/memory/heap/kheap.c:20-26 | the new run lies in the pool and its first bytes are zero; besides table and run nothing changes |
| `Ram.Memset` | src/memory/memory.c:3-8 | exactly the given range holds the given byte |
| `HeapRuns.TableIsLedger` | src/memory/heap/heap.c:25-107 | after every guarded run of allocations and frees the table encodes exactly the outstanding allocations |
| `HeapRuns.SameLedgerSameTable` | src/memory/heap/heap.c:73-107 | two histories with the same outstanding allocations, in whatever order, leave the same bytes |
| `HeapRuns.AllFreedIsZero` | src/memory/heap/heap.c:97-107 | freeing everything leaves the all-zero table |
| `HeapRuns.RangesDisjoint` | src/memory/heap/heap.c:69-71 | the byte ranges of live runs are page-aligned, inside the pool and pairwise disjoint |
| `HeapRuns.MallocFreeRestores` | src/memory/heap/heap.c:25-107 | allocate then free gives back the whole memory |
| `Ram.UntagIsMask` | src/memory/paging/paging.c:68-68 | rounding down to a page is the bit mask 0xFFFFF000 on every word |
| `Ram.OrAligned` | src/memory/paging/paging.c:22-25 | or-ing flags into a page-aligned address adds them |
| `PageTables.TagRoundTrip` | src/memory/paging/paging.c:56-72 | a page-aligned table pointer survives tagging with flags and masking |
| `PageTables.SetEntry` | src/memory/paging/paging.c:56-72 | writing one entry of a space with distinct blocks updates the flat map at that page only and keeps the directory |
| `PageTables.FootFrame` | src/memory/paging/paging.c:135-142 | writes that avoid the blocks of a space change none of its 2^20 entries |
| `PageTables.MapStep` | src/memory/paging/paging.c:106-116 | one more page of a range, also round the end of the address space |
| `Paging.GetIndexes` | src/memory/paging/paging.c:42-54 | rejects unaligned addresses with zero indexes; otherwise the two indexes determine the page |
| `Paging.Set` | src/memory/paging/paging.c:56-72 | rejects unaligned addresses without change; otherwise updates the flat map at one page |
| `Paging.Get` | src/memory/paging/paging.c:135-142 | the flat map at an aligned address, and at page 0 for an unaligned one |
| `Paging.GetPhysicalAddress` | src/memory/paging/paging.c:144-147 | the frame of the page and the offset within it |
| `Paging.WalkIs` | src/memory/paging/paging.c:135-147 | entry and translation are those of the walk: ten bits of the address select a little-endian word of the directory, ten more one of the table it points to, the rest is the offset |
| `Paging.Map` | src/memory/paging/paging.c:100-104 | rejects unaligned arguments without change; otherwise one page stands for the given frame with the given flags |
| `Paging.MapRange` | src/memory/paging/paging.c:106-116 | every page of the range, in order and round the end of the address space, and no other |
| `Paging.MapTo` | src/memory/paging/paging.c:118-133 | accepted if and only if the three addresses are multiples of 4096 and the end is not below the start, the empty range included; otherwise no byte changes; an accepted range has page k stand for frame k with the flags and all other pages keep their entry |
| `Paging.MappedEntry` | src/memory/paging/paging.c:106-133 | page k of a mapped range, counted round the end of the address space, has frame k with the flags; any other page its old entry |
| `Paging.FillTable` | src/memory/paging/paging.c:19-23 | table i holds the identity entries of its 1024 pages and no other page changes |
| `Paging.AddTable` | src/memory/paging/paging.c:17-26 | one more heap block becomes a filled table entered in the directory; earlier tables stand |
| `Paging.NewDirectory` | src/memory/paging/paging.c:11-26 | directory and 1024 tables are 1025 new, distinct runs |
| `Paging.New4gb` | src/memory/paging/paging.c:11-31 | a space of 1026 new runs whose flat map is the identity with the flags on every page |
| `Paging.LowFirst` | src/memory/heap/heap.c:44-67 | where the lowest free blocks lie in a row, a first fit that the row holds is the start of the row |
| `Paging.GapFirst` | src/memory/heap/heap.c:44-67 | with one more free block below, a single block goes there and more blocks go to the row |
| `Paging.IdentityTranslation` | src/memory/paging/paging.c:144-147 | in a new space every 32-bit address translates to itself |
| `Paging.Free4gb` | src/memory/paging/paging.c:78-86 | exactly the tables, the directory and the chunk are released, whatever was mapped, and only table bytes change |
| `Paging.SpaceRoundTrip` | src/memory/paging/paging.c:11-133 | creating a space, any sequence of mappings in it, and freeing it gives back the heap table byte for byte |
| `Paging.MappingIsolated` | src/memory/paging/paging.c:100-133 | mapping in one live space changes no translation of another |
| `Paging.AllocationIsolated` | src/memory/heap/kheap.c:20-26 | an allocation changes no translation of any live space |
| `Paging.FreeIsolated` | src/memory/heap/heap.c:89-107 | freeing a block that is none of a space's own changes none of its translations and leaves it live |
| `ProcessMemory.AgreeKept` | src/task/process.c:262-328 | record, heap and tables of a process stay in agreement under any change that keeps its runs and its page-table bytes |
| `ProcessMemory.RecordSlot` | src/task/process.c:280-284 | mapping a new run with write access and recording it keeps the agreement |
| `ProcessMemory.EraseSlot` | src/task/process.c:300-328 | unmapping, clearing and freeing a recorded run keeps it |
| `ProcessMemory.MallocRecorded` | src/task/process.c:273-285 | all steps of a successful allocation together: agreement, zeroed memory, and nothing else in use changed |
| `ProcessMemory.MallocUndone` | src/task/process.c:286-290 | an allocation taken back for want of a slot leaves runs and every page entry as they were |
| `ProcessMemory.FreeErased` | src/task/process.c:317-328 | all steps of a free together |
| `ProcessMemory.RunEntries` | src/task/process.c:273-328 | mapping a run at its own address sets the entries of the pages that start in it and no other |
| `ProcessMemory.OwnRunsAre` | src/task/process.c:156-214 | the runs of a process one by one: image, stack, records, blocks of the address space, allocations |
| `ProcessMemory.NullFreed` | src/task/process.c:317-328 | the null pointer of an empty slot changes no page entry and no run |
| `ProcessMemory.ConfinedTrans` | src/task/process.c:262-328 | confinement to a process's own runs and free memory composes over steps |
| `ProcessMemory.StaysTrans` | src/task/process.c:262-374 | what a process does in several steps stays within its own runs and memory that was free |
| `ProcessCode.Process.FindFreeAllocationIndex` | src/task/process.c:262-271 | the first empty slot, or -ENOMEM when all 1024 are in use |
| `ProcessCode.Process.GetAllocationByAddr` | src/task/process.c:309-315 | the first slot with this address, or none when there is none |
| `ProcessCode.Process.AllocationUnjoin` | src/task/process.c:300-307 | exactly the slots with this address are emptied |
| `ProcessCode.Process.Malloc` | src/task/process.c:273-290 | null if and only if nothing fits or no slot is free, then record, runs and page entries are unchanged; otherwise the first empty slot names a new zeroed run of the rounded size, the entry of each page that starts in it is its own address with bits 7, and every other page keeps its entry; all records agree |
| `ProcessCode.Process.Free` | src/task/process.c:317-328 | a recorded pointer's slot is emptied and its run released; the entry of each page that starts in it is its own address without any flag bit, and every other page keeps its entry; null and unknown pointers change no entry and no record; all records agree |
| `ProcessCode.Process.TerminateAllocations` | src/task/process.c:156-160 | every slot is empty and exactly the recorded runs are released |
| `Loader.MapElf` | src/task/process.c:232-248 | the page entries are those of the segments in order, up to the first one that is rejected |
| `Loader.LoadedOne` | src/task/process.c:237-246 | the last segment on a page gives it its entry |
| `Loader.SegmentIs` | src/task/process.c:237-246 | in numbers, with wrap-around: on which pages a segment is, from which frame on, with which bits, and when it is rejected; a segment of no bytes is not |
| `Loader.EntryIs` | src/task/process.c:232-248 | in numbers: the entry that the last segment on a page gives it, and that a page without one keeps its own |
| `Loader.SegmentTranslates` | src/loader/formats/elfloader.c:87-89 | after mapping segments of which no later one takes its pages, every byte v of a segment translates to image + offset + (v - vaddr) if and only if vaddr and offset agree modulo 4096, and then the low bits of its entries are 7 with PF_W and 5 without |
| `Loader.FourBytesOff` | src/task/process.c:243-243 | a segment four bytes into its page, from an aligned file offset, is not found where it belongs |
| `Loader.PagesInImage` | src/task/process.c:243-243 | a segment's pages lie inside the blocks of its image if and only if its bytes do |
| `Loader.AlignUp` | src/memory/paging/paging.c:88-92 | the least page boundary at or above an address |
| `Loader.MapStack` | src/task/process.c:256-260 | each address a from 0x3FF000 - 16384 up to 0x3FF000 translates to stack + (a - 0x3FB000) and may be written in user mode; the entries of these pages are the frames of the stack run with bits 7, and every other page keeps its entry |
| `Loader.StackLeavesSegments` | src/task/process.c:256-260 | mapping the stack changes no translation and no entry of a segment at or above 0x400000 |
| `LoadProcess.RoomAfter` | src/memory/heap/heap.c:44-67 | after a first-fit allocation of n blocks out of n + k free ones in a row, k in a row are left |
| `LoadProcess.LoadImage` | src/loader/formats/elfloader.c:151-152 | a new run holds the bytes of the file; everything in use is unchanged |
| `LoadProcess.OpenFile` | src/fs/file.c:92-144 | three new blocks for a path of one part and four for the open file, each where first fit puts it; everything in use is unchanged |
| `LoadProcess.OpenAndRead` | src/loader/formats/elfloader.c:138-162 | the file is in a new run, the blocks of the open file are free again, and the three of the path are not |
| `LoadProcess.BuildParts` | src/task/process.c:45-72 | process record, file record, path, file, stack and task record are new runs, taken in the order of the code, and nothing else is taken in the end; the file is in place; everything in use is unchanged |
| `LoadProcess.MapProcess` | src/task/process.c:72-90 | the task is last in the list and a new space holds identity, segments and stack: the addresses from 0x3FF000 - 16384 up to 0x3FF000 are writable and translate into the stack run, and a page outside stack and segments keeps its identity entry with bits 5; after a rejected segment the task is off the list and its record and space are free again; apart from the task's record and the link of the one before, memory in use is unchanged |
| `LoadProcess.LoadedEntries` | src/task/process.c:232-248 | entries of well-placed segments: identity above the pool base, writable ones inside the image |
| `LoadProcess.NewAgrees` | src/task/task.c:43-57 | a freshly loaded process has record, heap and tables in agreement |
| `LoadProcess.Load` | src/task/process.c:45-91 | image, page entries and task list as the file and its segments say, in new runs of exactly the needed number of blocks, all of them the process's own but the three of the path, or an error that some segment was rejected; apart from the link of the last task everything that was in use is unchanged; records agree if the segments are good; on a heap whose lowest free blocks lie in a row, perhaps with one more below, where each block goes |
| `LoadProcess.SegmentBytes` | src/task/process.c:232-260 | a loaded program finds at each address of a segment at or above the program base, whose address and file offset agree modulo 4096 and whose pages no later segment takes, the byte of its file that the header says, writable if and only if PF_W is set |
| `LoadProcess.WholeRow` | src/memory/heap/heap.c:44-67 | the places of all parts, tables and records of a process in such a heap |
| `LoadProcess.WritablePages` | src/task/process.c:216-328 | the pages a task can write are exactly those from 0x3FF000 - 16384 up to 0x3FF000, the pages of its PF_W segments and those that start in one of its allocations |
| `Placement.WellPlacedIsGood` | src/task/process.c:232-248 | a segment that passes the check a loader can make on header and file size alone is rejected or stays below the pool and, if writable, in its image, wherever the image is put |
| `Placement.GoodIsWellPlaced` | src/task/process.c:232-248 | for segments inside the address space that check is exact |
| `Placement.ImageExactly` | src/task/process.c:243-243 | of page-disjoint segments clear of the stack, all pages of one lie in the image if and only if its bytes lie in the blocks of the file |
| `Placement.OwnExactly` | src/task/process.c:243-243 | they lie in the image or the stack if and only if its bytes are held by the two, jointly only where one follows the other |
| `Placement.HighExactly` | src/task/process.c:243-243 | the pages from the pool base on keep their identity entries if and only if each segment stays below or is read-only and stands for itself |
| `Placement.LowExactly` | src/task/process.c:243-260 | the writable pages below the pool are the program's own image and stack if and only if each segment is fair |
| `Placement.AgreesExactly` | src/task/process.c:45-91 | record, heap and page tables of a newly loaded process agree if and only if each of its segments is fair |
| `Placement.FairEverywhere` | src/task/process.c:232-248 | a writable segment inside the address space is fair for every place of image and stack if and only if it is well placed |
| `Placement.SpilledPage` | src/task/process.c:243-243 | a program whose zero-initialised second page is its own stack in one heap and foreign memory in another |
| `TaskMemory.Strncpy` | src/string/string.c:46-55 | each byte of the source before its first zero, at most count - 1 of them, a terminator behind, and nothing else |
| `TaskMemory.StrncpyVirtual` | src/task/task.c:157-159 | the same through the task's page tables, without change to any entry; which bytes the source has is `TaskMemory.StringBytes` |
| `TaskMemory.StringBytes` | src/string/string.c:46-55 | the string at a virtual address: byte i is the byte that (va + i) modulo 2^32 translates to, none is zero, and it ends before the first zero or with byte count - 1 |
| `TaskMemory.SourceKept` | src/task/task.c:154-157 | the temporary mapping does not change the bytes of a source that avoids the temporary page |
| `TaskMemory.ThroughTemp` | src/task/task.c:158-165 | what reaches the temporary block reaches the buffer, cut and terminated alike |
| `TaskMemory.CopyThrough` | src/task/task.c:154-165 | every page entry is as before, and byte i of the buffer is the byte that address (va + i) modulo 2^32 translates to, up to the first zero or to max - 1 bytes, with a terminator behind |
| `TaskMemory.CopyStringFromTask` | src/task/task.c:143-170 | when the source pages are present and avoid the temporary page, byte i delivered is the byte that address (va + i) modulo 2^32 translated to, up to the first zero or to max - 1 bytes, with a terminator behind; every page entry and the live runs are as before; the exact result code |
| `Protection.WritableIsOwn` | src/task/process.c:273-290 | a page the task can write stands for its image, its stack or one of its allocations |
| `Protection.Isolated` | src/memory/paging/paging.c:56-133 | such a page is in the pool, is not free, holds no page table and no task, file or process record of any process, and lies in no run of another |
| `Protection.NoSharedFrame` | src/task/process.c:216-290 | two processes never have writable pages for the same frame |
| `Protection.StoreKeeps` | src/task/process.c:216-290 | a user-mode store at any address keeps all processes consistent, every translation, every task record and every byte of the others |
| `Protection.StoreUnowned` | src/task/process.c:216-290 | and every byte in runs of no process |
| `Protection.OwnSourceClear` | src/task/task.c:143-170 | strings in a task's own writable memory avoid the temporary page |
| `Protection.OwnSourceIs` | src/task/task.c:157-159 | byte i of such a string is at address (va + i) modulo 2^32 |
| `Protection.StepKeeps` | src/task/process.c:262-328 | a confined step of one process keeps the whole system, and no other process sees it in its translations or its memory |
| `Protection.ExitKeeps` | src/task/process.c:198-214 | so does its exit, if the link write leaves the others alone |
| `Protection.LoadKeeps` | src/task/process.c:45-91 | so does taking free memory and writing one link of a listed task |
| `Protection.LoadUnowned` | src/task/process.c:45-91 | and it leaves runs of no process alone |
| `Protection.Joins` | src/task/process.c:45-91 | and a newly loaded process may join |
| `SystemRun.Terminate` | src/task/process.c:156-214 | exactly the runs of the process but its process record are released; the list is what the removal makes of it, right if and only if the back link allows it; besides own and free memory exactly the one link word changes, wherever the back link leads |
| `SystemRun.ExitFineExactly` | src/task/task.c:103-119 | for every list and heap of a consistent system: the order goes on without the task and every other process is left alone if and only if the condition on head, links, heap table, directories and slots holds |
| `SystemRun.UserStore` | src/memory/paging/paging.h:9-13 | the byte at the translated address changes when the low three bits of the entry and of the directory's flags are all set, and otherwise nothing |
| `SystemRun.Boot` | src/memory/heap/kheap.c:6-14 | from memory with a stop byte below the table: an empty heap and a consistent system |
| `SystemRun.SysMalloc` | src/task/process.c:273-290 | an allocation by one of many processes, with its effect on record, runs and page entries, keeps the system and every translation and every byte of the others |
| `SystemRun.SysFree` | src/task/process.c:317-328 | so does a free of any pointer, recorded, unknown or null; the pages of a recorded one lose every flag bit, and no other entry changes |
| `SystemRun.SysCopy` | src/task/task.c:143-170 | so does a copy of a string; of a string in the task's own writable memory byte i arrives from address (va + i) modulo 2^32, up to the first zero or to max - 1 bytes, with a terminator behind |
| `SystemRun.SysStore` | src/memory/paging/paging.h:9-13 | so does a user-mode store at any address |
| `SystemRun.SysExit` | src/task/process.c:198-214 | so does an exit whose link write goes right, which releases exactly the runs of the process but its process record |
| `SystemRun.SysLoad` | src/task/process.c:33-91 | so does a load; every program that is not rejected takes the first empty place, with no other place changed, and the end of the task list, with its file in memory; a full table of processes changes nothing |
| `SystemRun.SysInject` | src/task/process.c:345-374 | so does handing over arguments from allocations of one process to another, with argc and argv as the records say |
| `SystemRun.FreeCountAll` | src/memory/heap/heap.c:44-67 | the free bytes of the table are as many as the blocks outside all live runs |
| `SystemRun.Step` | src/task/process.c:33-374 | one call of any kind keeps the system; processes it is not about keep record, arguments, translations, runs and the bytes in them; runs of no process keep their bytes but for the stray link of an exit; order and back links of the tasks change as the call says: an exit takes its task out, a load may add one at the end, nothing else changes them |
| `SystemRun.Run` | src/task/process.c:33-374 | the same for every sequence of enabled calls by any processes, up to the first that is not enabled: order and all back links are those that the loads and exits describe, and bytes of no process change only where one of the exits strayed |
| `SystemRun.RightBackIsFine` | src/task/task.c:103-119 | an exit is enabled if the back link of its task leads to the task before |
| `SystemRun.StaysInLine` | src/task/task.c:15-119 | a call that takes out at most the last task keeps the list doubly linked and writes no stray link |
| `SystemRun.LastOut` | src/task/process.c:33-374 | in every run in which only the last listed process exits, every exit is enabled, the list stays doubly linked, and runs of no process keep every byte |
| `SystemRun.WritableInRun` | src/task/process.c:216-374 | after every such run a process that is still there can write exactly the pages from 0x3FF000 - 16384 up to 0x3FF000, the pages of its PF_W segments and those that start in one of its allocations, and its stack addresses translate into its stack run as they did at first |
| `SystemRun.StackNow` | src/task/process.c:256-260 | whatever a loaded process allocates and frees, its stack addresses are writable and translate into its stack run |
| `Arguments.CountCommandArguments` | src/task/process.c:335-343 | the length of the list |
| `Arguments.VectorNext` | src/task/process.c:359-369 | writing one more string and its pointer keeps all earlier ones |
| `Arguments.VectorKept` | src/task/process.c:359-369 | the vector built so far survives further allocations |
| `Arguments.OneArgument` | src/task/process.c:359-369 | one trip: a further distinct allocation with the record's text, or a failure for want of slots or blocks |
| `Arguments.SenderSafe` | src/isr80h/process.c:27-46 | records in allocations of one process are neither free nor page tables of another, so they can be read while arguments are built |
| `Arguments.InjectArguments` | src/task/process.c:345-374 | argc is the length of the list and argv[i] the i-th text, in distinct allocations of the process; it succeeds whenever slots and blocks suffice; on failure argc and argv stay; nothing of other processes is touched |
| `Arguments.VectorIs` | src/task/process.c:345-374 | byte by byte: the little-endian word x at argv is the address of what record x held up to its first zero or to 511 characters, with a terminator behind |
| `CommandLine.WordsAreMaximal` | programs/stdlib/src/string.c:91-127 | the words are exactly the maximal nonempty stretches without delimiters, in order |
| `CommandLine.WordsAreSpans` | programs/stdlib/src/string.c:91-127 | the texts delivered are those stretches |
| `CommandLine.WordsOfLine` | programs/stdlib/src/boios.c:6-31 | the words of a line of which n - 1 characters are kept are, in order, its maximal nonempty stretches of characters other than 32 among those, and every character other than 32 is in one |
| `CommandLine.Tokenizer.Strtok` | programs/stdlib/src/string.c:91-127 | the next word is terminated in place, the saved position moves behind it, and is cleared when no word is left; without string and saved position nothing happens |
| `CommandLine.LineBuffer` | programs/stdlib/src/boios.c:6-11 | the line cut to 1024 characters and a terminator |
| `Command.OwnStore` | src/task/process.c:273-290 | inside an allocation of its own a task's addresses are physical ones and its stores succeed |
| `Command.CopyWord` | programs/stdlib/src/string.c:48-57 | a record holds the word cut to 511 characters |
| `Command.ListedNext` | programs/stdlib/src/boios.c:20-31 | the writes for a new record hang it behind the last one and disturb no other |
| `Command.AddNode` | programs/stdlib/src/boios.c:14-31 | the list grows by one record with the word, or is unchanged because no slot or no block is left |
| `Command.RestOfLine` | programs/stdlib/src/boios.c:20-31 | the list is extended by the remaining words, in order, until an allocation fails |
| `Command.ParseCommand` | programs/stdlib/src/boios.c:6-34 | the list in the task's own allocations holds the words in order, all of them unless slots or blocks ran out; the saved position is cleared if and only if it holds all; which words they are is `CommandLine.WordsOfLine`, and which bytes `Command.ListedIs` |
| `Command.ListedIs` | programs/stdlib/src/boios.c:14-31 | byte by byte: a record holds its text and a terminator, and at 512 the little-endian address of the next record or null |
| `Command.CommandWordsAre` | programs/stdlib/src/boios.c:6-31 | the words of a command are, in order, the maximal nonempty stretches of characters other than 32 among its first 1023 |
| `Command.ListedIsArgList` | src/task/process.c:359-369 | that list is one the kernel can walk, with those texts |
| `Command.ListedLoaded` | src/task/process.c:45-91 | loading a program keeps it |
| `Command.FewWords` | programs/stdlib/src/string.c:91-127 | a line of n characters has at most half as many words, rounded up |
| `Command.RunCommand` | src/isr80h/process.c:27-46 | from line to argv: unless the line has no word, the table of processes is full or a segment is rejected, the program starts with argc the number of words and argv[i] the i-th word cut to 511 characters; processes other than the shell and the new one keep every translation; which words and bytes these are is `Command.CommandWordsAre` and `Command.StartedIs` |
| `Command.StartedIs` | src/task/process.c:345-374 | byte by byte: argc is the number of words, and the little-endian word x at argv is the address of word x, at most 511 characters of it, with a terminator behind |
| `Disk.Stream.Seek` | src/disk/streamer.c:14-18 | moves to the position |
| `Disk.Stream.Read` | src/disk/streamer.c:20-42 | delivers exactly the next bytes of the disk, across sectors, advances by their number, and terminates |
| `Fat16.GetClusterForOffset` | src/fs/fat/fat16.c:321-354 | the cluster at the offset's place in the chain, or -EIO when one of the code's six marks comes before |
| `Fat16.EndMarkFollowed` | src/fs/fat/fat16.c:328-351 | one step of the walk goes on with the entry unless it is one of the six marks, which no end mark of FAT16 is |
| `Fat16.ReadInternal` | src/fs/fat/fat16.c:356-381 | delivers the bytes the code seeks, if and only if the chain reaches every piece; terminates though it walks anew for every piece; in numbers `Fat16.ReachesIs` and `Fat16.ReadIs` |
| `Fat16.ReachesIs` | src/fs/fat/fat16.c:321-381 | a read succeeds if and only if none of the look-ups up to its last piece gives 0xFF0, 0xFF6, 0xFF7, 0xFF8, 0xFFF or 0 |
| `Fat16.ReadIs` | src/fs/fat/fat16.c:291-381 | byte i of every successful read comes from 512 * dataSector + (cluster - 2) * size + offset % size + i % size, with size the bytes of a cluster and cluster the number after offset / size + i / size look-ups |
| `Fat16.AlignedReadIs` | src/fs/fat/fat16.c:291-381 | of a read from the start of a cluster or inside one it is 512 * dataSector + (cluster - 2) * size + (offset + i) % size, with cluster the number after (offset + i) / size look-ups |
| `Fat16.ReadPiece` | src/fs/fat/fat16.c:356-381 | where the recursion seeks byte i, in closed form |
| `Fat16.FilePiece` | src/fs/fat/fat16.c:321-354 | where byte offset + i of the file lies, next to where the recursion seeks it; in numbers `Fat16.FilePositionIs` |
| `Fat16.FilePositionIs` | src/fs/fat/fat16.c:291-354 | byte offset of the file lies at 512 * dataSector + (cluster - 2) * size + offset % size, with cluster the number after offset / size look-ups |
| `Fat16.ByteIsRight` | src/fs/fat/fat16.c:364-374 | the two places are the same if and only if the byte stays in its cluster or the next cluster follows on the disk |
| `Fat16.NeverCrosses` | src/fs/fat/fat16.c:364-374 | cluster-aligned reads and reads inside one cluster always stay |
| `Fat16.ReadIsSlice` | src/fs/fat/fat16.c:356-381 | such reads deliver exactly the requested slice of the file; in numbers `Fat16.AlignedReadIs` |
| `Fat16.SliceExactly` | src/fs/fat/fat16.c:356-381 | a read delivers the slice of the file on every disk if and only if each byte that crosses finds the next cluster of its chain behind it |
| `Fat16.FragmentedRead` | src/fs/fat/fat16.c:356-381 | a read of 512 bytes from offset 1 of a file in clusters 2 and 4 that succeeds with a wrong byte |
| `Fat16.ReadFile` | src/fs/fat/fat16.c:542-558 | the element count or -EIO, exactly when the chain reaches all or not; every element delivered in its place; in numbers `Fat16.FileReachesIs` and `Fat16.ElementIs` |
| `Fat16.ElementIsSlice` | src/fs/fat/fat16.c:542-558 | an element is its slice of the file under the same condition on its own offset |
| `Fat16.FileReachesIs` | src/fs/fat/fat16.c:542-558 | a file read succeeds if and only if none of the look-ups for its last element gives one of the six numbers |
| `Fat16.ElementIs` | src/fs/fat/fat16.c:542-558 | byte i of element e of a successful file read is the byte of the disk at the place of byte position + size * e + i of the file |
| `Fat16.LookUpIsElsewhere` | src/fs/fat/fat16.c:301-319 | where the product fits 32 bits, the looked-up position is the entry's place in the FAT only for cluster 0 without reserved sectors |
| `Fat16.EntryOfClusterTwo` | src/fs/fat/fat16.c:301-319 | with one reserved sector, the position sought for cluster 2 and the one its entry has |
| `PathText.PartsStopAtEmpty` | src/fs/pparser.c:75-102 | the parts are the stretches between slashes up to the first empty one |
| `PathText.PartsFit` | src/fs/pparser.c:27-45 | every part with its terminator fits its 128-byte buffer, for accepted paths |
| `PathText.ParsePrint` | src/fs/pparser.c:75-102 | printing a canonical path and parsing it gives drive and parts back |
| `PathText.PrintParse` | src/fs/pparser.c:75-102 | parsing a path and printing it gives it back if and only if no part is empty |
| `PathText.DoubledSlash` | src/fs/pparser.c:75-102 | a path with a doubled slash that comes back shorter |
| `PathText.ParseIs` | src/fs/pparser.c:3-45 | accepted are exactly paths of 3 to 128 characters that begin with a digit, 58 and 47; the drive is the digit, and the parts are, from position 3 on, the nonempty stretches without 47, one 47 apart, up to the end or a further 47 |
| `PathParser.GetPathPart` | src/fs/pparser.c:27-45 | a new block with the next part, or null without a block left behind; the cursor moves past the slash |
| `PathParser.ParsePathPart` | src/fs/pparser.c:47-60 | the list in memory grows by one record that names the part, or is unchanged |
| `PathParser.AppendNode` | src/fs/pparser.c:52-59 | hanging a new record on the last one gives the list with that record at its end |
| `PathParser.ParsePath` | src/fs/pparser.c:75-102 | null without any change for a malformed path; otherwise the records in memory hold exactly drive and parts |
| `PathParser.PathIs` | src/fs/pparser.c:19-60 | byte by byte: drive and first record in the root, name and next record in each record, characters and terminator in each name |
| `PathParser.FreePath` | src/fs/pparser.c:62-73 | exactly the blocks of the path are released |
| `PathParser.ParseAndFree` | src/fs/pparser.c:62-102 | parsing and freeing restores the heap table byte for byte |
| `Keyboard.NonzeroIsQueued` | src/keyboard/keyboard.c:42-74 | a slot is nonzero if and only if it lies between head and tail |
| `Keyboard.WrapSlot` | src/keyboard/keyboard.c:72-74 | slots are unaffected by the wrap-around of a 32-bit counter |
| `Keyboard.PushRing` | src/keyboard/keyboard.c:42-51 | with room, the ring after a push holds the queue and the new character |
| `Keyboard.PopRing` | src/keyboard/keyboard.c:53-64 | the ring after a pop holds the queue without its oldest character, which is delivered |
| `Keyboard.BackRing` | src/keyboard/keyboard.c:66-70 | the ring after a backspace holds the queue without its newest character |
| `Keyboard.Buffer.Push` | src/keyboard/keyboard.c:42-51 | zero is ignored; another character joins the queue if there is room, and otherwise buffer and counters stand for no queue and the new character is next |
| `Keyboard.Buffer.Pop` | src/keyboard/keyboard.c:53-64 | the oldest character, or zero without change |
| `Keyboard.Buffer.Backspace` | src/keyboard/keyboard.c:66-70 | the newest character is gone; on an empty buffer buffer and counters stand for no queue |
| `Keyboard.FirstInFirstOut` | src/keyboard/keyboard.c:42-64 | characters come out in the order they went in |
| `Keyboard.Run` | src/keyboard/keyboard.c:42-74 | in every run with at most 1024 outstanding characters the buffer is the queue and pops deliver it |
| `Keyboard.OneTooMany` | src/keyboard/keyboard.c:42-64 | after 1025 pushes the last character comes out first |
| `Keyboard.EraseFirst` | src/keyboard/keyboard.c:66-70 | a backspace typed first of all breaks the queue |
| `TaskList.HungLast` | src/task/task.c:31-34 | the two writes for a new record put it last in the forward order, and in a doubly linked list; no other link changes |
| `TaskList.LinksAre` | src/task/task.h:29-35 | the next link is the little-endian word at byte 52 of a record, the back link that at byte 56 |
| `TaskList.Scheduler.Append` | src/task/task.c:25-34 | the new task is last; head, tail and current are it if it is the only one, and otherwise only the tail moves; its back link is the old tail, whose next link is the new task, and no other link changes |
| `TaskList.Scheduler.GetNext` | src/task/task.c:97-101 | the successor of the current task, or the first |
| `TaskList.Scheduler.Remove` | src/task/task.c:103-112 | exactly one link word changes, at whatever the back link leads to, to the next link of the task; head, tail and current move on only if they were the task; the forward order is the old one without the task if and only if the back link allows it |
| `TaskList.CutExactly` | src/task/task.c:103-112 | on memory with the right forward order and any back links, the order goes on without the task if and only if its back link leads to the task before it or it is the first of several with a back link out of the others; on a doubly linked list the back links stay right if and only if the task was last |
| `TaskList.LinkSpoils` | src/task/task.c:103-112 | a removal spoils the back link of the task behind |
| `TaskList.LinksStay` | src/task/task.c:103-112 | and leaves every other back link as right or wrong as it was |
| `TaskList.RoundRobin` | src/task/task.c:66-101 | n steps from any current task visit all n tasks once, in order, and come back |
| `TaskList.LineCut` | src/task/task.c:103-112 | a removal takes one task with its back link out and changes no other back link |
| `TaskList.LineHung` | src/task/task.c:25-34 | a new task comes last, with a back link to what was last before, and changes no other back link |
| `TaskList.Take` | src/task/task.c:15-112 | one step of a run: a new task behind all others, one task gone, or the next one in turn current, with all back links |
| `TaskList.Run` | src/task/task.c:15-112 | in every run of creations, switches and removals the forward order and every back link are those the steps describe, up to the first removal that its back link does not allow; which one that is, is told by the steps alone |
| `TaskList.StraightOn` | src/task/task.c:15-112 | on a doubly linked list every creation, switch and removal of the last task is allowed and leaves a doubly linked list |
| `TaskList.TailRun` | src/task/task.c:15-112 | from a doubly linked list every run of creations, switches and removals of the last task goes to its end and leaves a doubly linked list in the order the steps describe, with current in it |
| `TaskList.RemoveTwice` | src/task/task.c:103-112 | after removing any inner task of any list, removing its successor leaves it linked, and the tail at a removed task if it was last |
| `TaskList.ThreeTasks` | src/task/task.c:103-112 | three tasks on which this happens |
| `TaskLinks.LinkExactly` | src/task/task.c:104-105 | a word written as the next link of whatever lies at an address leaves a process alone if and only if that is its task record, the word was there, or the page is none of its own |
| `TaskLinks.TableHit` | src/task/task.c:104-105 | a link written into a page table sets the entry of one page, 13 pages into the table's range, and no other |
| `TaskLinks.TailExactly` | src/task/task.c:31-34 | the same condition for the tail when a new record is hung on it |
| `TaskLinks.ExitExactly` | src/task/task.c:103-112 | order and other processes come out right if and only if the back link fits the order and meets a listed task, the same word, or no page of another process |
| `TaskLinks.CutUnowned` | src/task/task.c:104-105 | runs of no process keep their bytes but where the back link leads to no listed task |
| `TaskLinks.RunStartIs` | src/memory/heap/heap.c:73-87 | walking down to an IS_FIRST entry finds the start of the run a block lies in |
| `TaskLinks.HoldsIs` | src/memory/paging/paging.c:11-31 | table bytes, directory and slots tell exactly whose page an address is |
| `StaleTask.GapAfterExit` | src/task/process.c:198-214 | after the exit of a process that lies in one row of blocks, the file record and the row behind the path are free, and process record and path are not |
| `StaleTask.TaskIsTable` | src/memory/heap/heap.c:44-67 | in that gap first fit puts a page table of a smaller process where the task record was |
| `StaleTask.Start` | src/isr80h/process.c:7-25 | an enabled load of a program without segments, which runs then |
| `StaleTask.LeftAt` | src/task/task.c:97-112 | when the running one of several tasks is removed, the next one or the first is current |
| `StaleTask.Stop` | src/isr80h/process.c:55-60 | an enabled exit of the running program, and which task the kernel goes on with |
| `StaleTask.StaleLink` | src/task/process.c:33-214 | from an empty heap, four programs start, the fourth and the second exit, the first starts a smaller one, that one starts another, and the other exits: all enabled, each call by the running program; then the third runs, its back link leads into a page table of the smaller program, and its exit is not enabled |
| `StaleTask.StaleExit` | src/task/task.c:103-119 | carried out all the same it changes the entry of exactly one page of that program, which was present and is not any more |

## Left out

- Port I/O, ATA polling, assembly, interrupts, GDT and IDT encoding, the timer, the terminal, `printf` and the shell: hardware effects or user interface.
- System-call dispatch: table lookups; the calls enter `SystemRun.Step` directly.
- Faults and the translation cache: a translation is the walk over the tables; a store the tables forbid does nothing, and switching directories is the choice of tables to walk.
- Contents of the process, task and ELF records other than the links of the task record: the records are live runs of the modelled heap, which no process can write (`Protection.Isolated`), but their fields are objects. Process image, stack, page tables, allocations, task links, argument records and path records are bytes.
- ELF headers: segments and file bytes are parameters; validation (src/loader/formats/elfloader.c:83-85) and the virtual and physical bounds that nothing uses for mapping (src/loader/formats/elfloader.c:91-110) are not modelled. Neither are flat binaries (src/task/process.c:250-254).
- FAT16 directories, name lookup, seek, stat and file descriptors: scans and field copies.
- The failure path of `task_new` and the kernel panics.
- `itoa` and the other string helpers.
- `kmalloc`: it is `heap_malloc` on the one kernel heap.
- Kheap.Machine.Kzalloc: asks for the heap's guard, because the code zeroes whatever pointer it got.
- Paging.Map: for flags below 4096, as all callers have them.
- Paging.MapRange: for flags below 4096, and for physical ranges that end within the address space, as those of `Paging.MapTo` do.
- Paging.MapTo: for flags below 4096.
- Paging.New4gb: asks for 1026 free blocks, because the code uses its allocations unchecked.
- ProcessCode.Process.Malloc: the process allocation asks for the heap's guard; without it the table is overrun as `HeapTable.MallocOverruns` says.
- ProcessCode.Process.Free: the process free of a null pointer asks for a byte below the heap table that ends the walk; `SystemRun.Boot` takes that from the memory it starts with, and every later step keeps it.
- LoadProcess.Load: asks for free blocks for the three records, the path, the file, the stack and the address space, and for one free run that holds those of the parts, so that no allocation on the way fails; the result codes of failed allocations are not modelled. It also asks for a list in the right order, so that the tail is a live record; `TaskLinks.TailExactly` says what another tail does.
- LoadProcess.OpenFile: for a file in the root directory, found once, with a free file descriptor. Every further part of a path keeps two more blocks, and directories read on the way are not modelled; neither are the contents of path and descriptors, and that opening fails.
- StaleTask.Start: for programs without segments, whose loads are never rejected.
- SystemRun.SysLoad: asks for well-placed segments; `Placement.AgreesExactly` says what a program that is not does to isolation.
- SystemRun.SysExit: asks for a link write that goes right; `SystemRun.Terminate` and `SystemRun.ExitFineExactly` say what any other does.
- SystemRun.Run: ends at the first call that is not enabled, since after an unguarded allocation, a badly placed program or a stale link the heap or another process may be overwritten. That a load without room fails is not modelled.
- Loader.MapStack: for a stack whose end stays below the last page of the address space, which every heap block does.
- TaskMemory.CopyStringFromTask: for 0 < max and a kernel buffer between 0xF000 and the heap pool; delivery is promised when every source page is present and none is the temporary page, in the heap's bookkeeping or in the page tables; the page fault of another source is not modelled.
- Arguments.InjectArguments: the argument records lie in memory that is neither free nor part of heap or page tables, as allocations of the sender do (`Arguments.SenderSafe`), and the vector meets the heap's guard.
- Command.ParseCommand: the line buffer on the stack and the saved position are objects, not bytes of the task's memory; the saved position is cleared on entry, since otherwise the code would go on in a line that is gone.
- Command.RunCommand: file and segments are parameters, since finding the program by name is not modelled, and memory and slots suffice for the words.
- Disk.Stream.Read: positions stay below 2^31, where `int` arithmetic does not overflow; the same holds for the positions a file's clusters have.
- Fat16.ReadInternal: the FAT look-up is an arbitrary function of the cluster, since its address is not the entry's; the chain's clusters lie in the data area; disk errors are left out. Offsets and totals are natural numbers without bound, so the contract says nothing about sums that overflow an `int`; the same holds for `Fat16.ReadFile`.
- Fat16.LookUpIsElsewhere: products that wrap round 32 bits may coincide with the entry's place and are not described.
- PathParser.ParsePath: asks for 130 free blocks, because the code uses its allocations unchecked.
- Keyboard.Run: one keyboard buffer, that of the process in the foreground; which process that is, and the driver, are not modelled.
- TaskList.Run: ends at the first removal that its back link does not allow, since that breaks the forward order (`TaskList.Scheduler.Remove`).
