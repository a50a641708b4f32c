# HepOS, modelled and proved in Dafny

HepOS is a small x86-64 operating system written in Rust: a UEFI boot loader, a kernel with its own
file system, memory management, a preemptive scheduler and user processes, and device drivers that run
as processes and talk to the kernel through shared memory. This project models its core and proves
what that core is for.

- **HepFS** (`Hepfs*.dfy`). The file system down to the bytes on disk: bitmaps, inodes, direct,
  indirect and double-indirect pointers, directories, and every operation on them. `HepfsStore`
  reads and writes disk blocks; `HepfsState` and `HepfsNames` state the invariant, with ghost maps
  that say which inode owns each block and where each inode has its name; `HepfsOnDisk` restates it
  on the disk bytes alone, and `HepfsDisk` says byte by byte where on the disk everything is;
  `HepfsSpace` says what is free; `HepfsCalls` says when each call panics and what it does
  otherwise, `HepfsRuns` puts calls into runs of clients that use what earlier calls gave them, and
  `HepfsTour` runs two clients from a formatted disk.
- **Memory** (`BootMap`, `Pmm`, `Heap`, `HeapRuns`). The boot memory map, the page bitmap, and the
  slab heap over bytes, whose free lists live inside the freed chunks.
- **Address spaces** (`Paging`, `ElfFormat`, `Elf`, `ElfBytes`, `ElfWitness`, `Process`,
  `ProcessRun`). Four-level page tables built on demand, the ELF loader above them, said once more
  of the file's own bytes, and a program's whole life in memory, with any stores and mappings it
  makes.
- **Tasks** (`Scheduler`, `Machine`, `MachineRuns`, `MachineFacts`, `MachineWitness`). Round-robin
  scheduling and the CPU state all tasks share: the interrupt flag, GS, the one user-stack slot, the two
  kernel stacks and CR3, over every run of events.
- **Shared-memory protocols** (`AhciMailbox`, `GopHandshake`, `NvmeRing`). Two parties, one memory
  access at a time, every interleaving.
- **Checksums** (`Checksum`). The Internet checksum and the senders that store it.

A call that panics in the kernel ends in `ok == false`, `None` or an error here, and the contract
says when that happens: in HepFS exactly when, in the loader and the mapping calls only with nothing
free. Integers are unbounded; where a width matters (the 32-bit checksum accumulator, the 32-bit
handshake counters, the 64-bit directory size, the 16-bit length fields) the wrap is written out.
Hardware, firmware and the scheduler's choices appear as parameters or as steps that may happen at
any time: the NVMe device, the disk behind AHCI, when the compositor runs, what clients and programs
write.

What the models assume and nothing in the sources enforces:

- Each scheduler entry point (`spawn`, `sleep_ms`, `block_on_irq`, `exit_current`, the timer handler)
  and each system call entry and exit happens as one step. The two stores that change CR3 do not: ticks
  may come between them, and wherever else interrupts are on, inside system calls as well.
- A task that runs with GS the wrong way around goes on running: what it then reads through GS is not
  modelled.
- User mode can write nothing in the kernel half of the space a program is started from
  (`Process.Private`), and ranges granted to drivers are neither free memory nor page tables
  (`ProcessRun.GrantsApart`).
- The direct map of the heap ends below 2^64.

Where code and comments disagree the model follows the code. `map_page_into` and
`map_page_current_user` are described as setting USER on every level, but an entry that exists is left
alone: `Paging.Memory.Map` gives the exact condition. The AHCI mailbox is described as handing requests
over safely, but the driver clears `op` after it has answered: `AhciMailbox.LostIff` says when a
request can be lost, `AhciMailbox.LosingRun` how, and `AhciMailbox.TimeoutBreaksIt` what a timeout costs.
`set_current_cr3` is described as keeping a task's record in step with CR3, but interrupts are on while a
process is entered: `MachineFacts.AlwaysOwn` says exactly when it does. `block_on_irq` is described as
leaving GS in its resting state whenever another task runs, but a task it resumes has the interrupt flag
of whoever switched to it, and a tick there takes GS along: `MachineFacts.AlwaysSane` says exactly when.
The comment on anonymous memory says that process teardown reclaims it; `ProcessRun.RunElf` shows that it
does not. The id counter is described as starting after the boot tasks' ids, but there are three of those:
`Machine.Cpu.Spawn`. `sleep_ms` is described as rounding up to a tick, but it rounds down, to at least
one. `move_entry` does not look for cycles (`HepfsTree.MoveIsTreeIff`), `create_file` not for taken names
(`HepfsCreate.Create`), and the loader not for addresses in the kernel half (`Elf.Load`,
`ElfWitness.HighLoad`).

## Model

| member | source | states |
|---|---|---|
| HepfsLayout.SetInodeReadsBack | kernel/src/hepfs.rs:232-245 | an inode encoded into its 128-byte slot and decoded again is the same inode, for every field |
| HepfsLayout.SetInodeFrame | kernel/src/hepfs.rs:239-245 | writing one inode of a table block leaves every other inode of the block as it was |
| HepfsLayout.SetBitFrame | kernel/src/hepfs.rs:221-229 | setting or clearing one bit of a word changes no other bit |
| HepfsLayout.FullWord | kernel/src/hepfs.rs:203-203 | a byte of all ones has no clear bit, so the scan may skip it |
| HepfsLayout.InodeBytesFields | kernel/src/hepfs.rs:112-124 | where each field of an encoded inode is in its 128 bytes |
| HepfsLayout.SlotBytesFields | kernel/src/hepfs.rs:149-162 | an encoded directory slot is the inode number, the length of the name, the name, and zeros |
| HepfsDisk.BitFormat | kernel/src/hepfs.rs:198-229 | on every volume inode bit `i` is bit `i % 8` of byte `i / 8` of block 1, and block bit `b` likewise in blocks 2 to 5: the byte divided by a power of two is odd |
| HepfsDisk.InodeFormat | kernel/src/hepfs.rs:112-124 | inode `i` is the 128 bytes from `128 * (i % 32)` on of block `6 + i / 32`, every field least significant byte first at its own offset |
| HepfsDisk.PointerFormat | kernel/src/hepfs.rs:454-488 | pointer `i` of an indirect block is the four bytes from `4 * i` on, least significant first |
| HepfsDisk.SlotFormat | kernel/src/hepfs.rs:149-162 | slot `i` of a directory block is the 32 bytes from `32 * i` on: inode number, length, name of at most 27 bytes, the empty one if those are not UTF-8 |
| HepfsDisk.Utf8Iff | kernel/src/hepfs.rs:158-161 | the byte-by-byte check accepts exactly the concatenations of the UTF-8 forms of Unicode scalar values: no overlong forms, no surrogates, nothing cut off |
| HepfsStore.BitTied | kernel/src/hepfs.rs:221-229 | rewriting one bitmap byte on disk changes exactly that bit of the meaning of the disk: no other bit, inode or data block |
| HepfsStore.InodeTied | kernel/src/hepfs.rs:239-245 | rewriting one inode slot on disk changes exactly that inode of the meaning of the disk |
| HepfsStore.Volume.BitmapAlloc | kernel/src/hepfs.rs:198-219 | claims the first clear bit at or above `skip`, or none exactly if there is none; the byte-wise scan with its 0xFF shortcut is the bit-wise minimum |
| HepfsStore.Volume.BitmapSet | kernel/src/hepfs.rs:221-229 | sets or clears one bit and nothing else on the disk |
| HepfsStore.Volume.AllocBlock | kernel/src/hepfs.rs:262-268 | takes the lowest free data block and zeroes it, or panics when the disk has none |
| HepfsStore.Volume.AllocInode | kernel/src/hepfs.rs:270-275 | takes the lowest free inode number |
| HepfsStore.Volume.WriteInode | kernel/src/hepfs.rs:239-245 | afterwards the inode table holds that inode and is otherwise unchanged |
| HepfsState.GrowCore | kernel/src/hepfs.rs:262-268 | giving one inode a fresh block keeps the ownership invariant of all the others |
| HepfsState.WriteCore | kernel/src/hepfs.rs:192-196 | writing a block of one inode keeps the ownership invariant of all the others |
| HepfsSpace.FreeIs | kernel/src/hepfs.rs:198-275 | conservation: on every volume that satisfies the invariant the free blocks are those the disk and the bitmap have room for less those the inodes own, and the free inode numbers 1024 less the live inodes; nothing is lost or counted twice |
| HepfsFile.WriteDirect | kernel/src/hepfs.rs:439-452 | phase 1 of a rewrite: the direct blocks hold their part of the data, and it fails only for lack of space |
| HepfsFile.WriteIndirect | kernel/src/hepfs.rs:454-488 | phase 2: the single-indirect blocks, with the pointer table edited in memory and flushed once |
| HepfsFile.WriteDouble | kernel/src/hepfs.rs:490-540 | phase 3: the double-indirect blocks and their level-1 tables, up to the last addressable block |
| HepfsFile.WriteFile | kernel/src/hepfs.rs:432-544 | succeeds exactly if the inode is a file, the data is addressable and the missing blocks, tables included, are free; then the file holds the data, grown or shrunk, the invariant holds, exactly the missing blocks were taken, and every other inode, block and table entry is as it was |
| HepfsRead.ReadFile | kernel/src/hepfs.rs:753-812 | returns exactly the bytes of the file through all three pointer levels |
| HepfsDir.FindInDir | kernel/src/hepfs.rs:360-373 | for any live inode, the inode of the first slot with that name among the slots its direct blocks spell, bytes that are not UTF-8 spelling the empty name, or none exactly if there is none; of a directory those are its own slots, of a file whatever its bytes happen to say |
| HepfsDir.ListDir | kernel/src/hepfs.rs:343-358 | the used slots in order, each once |
| HepfsContent.ListingIndex | kernel/src/hepfs.rs:343-358 | entry `j` of a listing sits in a used slot, and the used slots before it are the entries before it |
| HepfsDir.AddDirEntry | kernel/src/hepfs.rs:375-406 | fills the first unused slot, taking a new block only when all are used; succeeds exactly if the name fits and there is a slot or room to grow; nothing else changes; the directory's recorded size grows by the 32 bytes of a slot |
| HepfsCreate.Create | kernel/src/hepfs.rs:409-428 | succeeds exactly if an inode, the directory slot and the blocks needed are free, also when the name is taken; then a fresh empty file or directory is entered and every other inode is untouched; the tree stays a tree, and the whole invariant holds if and only if the name was free |
| HepfsRemove.ReleaseAll | kernel/src/hepfs.rs:559-599 | the stop-at-zero loops over direct, indirect and double-indirect pointers clear the bit of every block of the inode and of no other |
| HepfsRemove.Remove | kernel/src/hepfs.rs:547-622 | removes exactly a file or an empty directory found by name; its blocks and its inode become free and every other inode is untouched; the removed inode's entry in the table is blank |
| HepfsOps.Rename | kernel/src/hepfs.rs:628-650 | renames exactly if the new name is free, fits and the old one exists; the entry keeps its slot and inode |
| HepfsOps.MoveEntry | kernel/src/hepfs.rs:666-694 | the entry leaves one directory and enters the other under the same inode, wherever that directory is; the ownership invariant always holds afterwards, the whole invariant if and only if the directory was not the entry or below it; refused exactly when the directories are equal, the name is taken or missing; panics exactly when the destination has no room |
| HepfsTree.MoveIsTreeIff | kernel/src/hepfs.rs:652-694 | there is no cycle check: after a move some choice of parents and ranks makes the stored directories a tree if and only if the destination was not the entry or below it |
| HepfsTour.MoveIntoItself | kernel/src/hepfs.rs:652-694 | the failing case, from a formatted disk: make a directory and move it into itself; the call succeeds, the directory is its own entry, the root is empty and what is stored is no tree |
| HepfsTree.EnterNames | kernel/src/hepfs.rs:375-406 | a new entry keeps the name space a tree in which every live inode has one name |
| HepfsTree.DropNames | kernel/src/hepfs.rs:547-622 | dropping the only name of a childless inode keeps the name space a tree |
| HepfsTree.RenameNames | kernel/src/hepfs.rs:628-650 | a rename to a free name keeps names unique and the tree as it was |
| HepfsCopy.CopyFile | kernel/src/hepfs.rs:710-728 | a copied file has the same bytes under a fresh inode and fresh blocks |
| HepfsCopy.CopyDir | kernel/src/hepfs.rs:710-728 | copying a directory copies every child, in order, on fresh inodes, leaving the source as it was; into a directory below itself it never succeeds, however much room there is |
| HepfsCopy.CopyEntry | kernel/src/hepfs.rs:710-728 | always terminates; when not refused it succeeds if and only if the destination is not below the source and the whole copy is affordable, and panics otherwise; then the copy is deep-equal to the source, on fresh inodes, and the source tree and every other inode is untouched |
| HepfsCopy.SinkChild | kernel/src/hepfs.rs:710-728 | the recursion below itself: the entry of the source that leads to the destination leads to the new directory too, so copying it is copying below itself again; the entries before it are not above the new directory |
| HepfsCopy.ContentBelow | kernel/src/hepfs.rs:696-709 | every inode at or below the source has a finite content, on inodes at or below the source alone |
| HepfsContent.OneContent | kernel/src/hepfs.rs:696-728 | an inode has at most one content, so what a copy costs is determined by the source |
| HepfsFormat.Format | kernel/src/hepfs.rs:280-324 | a formatted disk satisfies the invariant with an empty root directory and every other block and inode free |
| HepfsOnDisk.BlockBits | kernel/src/hepfs.rs:198-274 | on the disk alone: a data block's bit is set if and only if a pointer of a live inode, data or table, names it |
| HepfsOnDisk.NamedOnce | kernel/src/hepfs.rs:432-544 | on the disk alone: no block is named by two inodes or by two pointers of one |
| HepfsOnDisk.NoGaps | kernel/src/hepfs.rs:753-812 | on the disk alone: the block pointers of an inode form a nonzero prefix across all three levels |
| HepfsOnDisk.FileOnDisk | kernel/src/hepfs.rs:753-812 | on the disk alone: byte `j` of a file is byte `j % 4096` of the block its pointer `j / 4096` names, through all three levels, and the size is in the inode |
| HepfsOnDisk.StoredSlotIs | kernel/src/hepfs.rs:343-358 | on the disk alone: slot `i` of a directory's block `m` is its slot `128 * m + i`, and there are no others |
| HepfsOnDisk.InodeBits | kernel/src/hepfs.rs:270-275 | on the disk alone: an inode's bit is set if and only if it is the root or a directory slot names it |
| HepfsOnDisk.OneName | kernel/src/hepfs.rs:375-406 | on the disk alone: no inode is named by two directory slots |
| HepfsCalls.Apply | kernel/src/hepfs.rs:343-728 | one call of any operation on any volume that satisfies the invariant: it panics if and only if `Panics` says so of the disk size, the names, the bytes and the blocks owned (for lack of inodes, blocks or slots, too long a name, too much data, a copy below itself, a directory read or a file listed; never on removing, renaming or finding); otherwise it gives back and does to names, bytes and space exactly what the abstract step says, keeps the invariant, and moves the generation counter if a directory changed |
| HepfsRuns.Run | kernel/src/hepfs.rs:343-728 | every run of a client that decides by what its earlier calls gave back, keeps to free names and does not move an entry below itself: the invariant and every cached listing hold throughout, the states are those of the abstract steps, and the run ends in a panic only if its next call is one that panics in the state reached, none before it having been |
| HepfsRuns.RunFromFormat | kernel/src/hepfs.rs:280-728 | the same from any disk at all, formatted first, and with the same account of when it panics |
| HepfsTour.TourBehaves | kernel/src/hepfs.rs:343-728 | a client that makes a directory and a file, writes the file it was given, moves it into the directory it was given, copies the directory and removes the file behaves so on every blank volume, whatever inode numbers it gets |
| HepfsTour.TourFromFormat | kernel/src/hepfs.rs:280-728 | from any disk, formatted first, that client panics if and only if the data is beyond the pointers or the disk has fewer than three data blocks and twice the blocks of the file; otherwise it makes all six calls and leaves a volume that satisfies the invariant |
| HepfsRuns.ListWithInfo | kernel/src/main.rs:214-221 | lists every entry with its inode, name and kind as they are now |
| HepfsRuns.ListCached | kernel/src/main.rs:239-253 | cached or fresh, the entries agree with the directory now; file writes, which leave the generation alone, cannot make the cache wrong |
| HepfsRuns.WriteThenRead | kernel/src/hepfs.rs:432-544 | what is written is what is read back, for all data that fits the pointers and the free space |
| HepfsRuns.CreateWriteRemove | kernel/src/hepfs.rs:409-622 | create, write, remove restores both bitmaps bit for bit and the directory's listing when the directory needed no new block; it succeeds exactly if inode, name and blocks suffice |
| HepfsRuns.ListingRestored | kernel/src/hepfs.rs:343-358 | filling an unused slot and emptying it again leaves the listing as it was |
| BootMap.Merge | hepbl/src/main.rs:576-595 | for every address the merged map says what the kept descriptors say; all are kept unless 128 regions are full; regions are page-aligned and disjoint |
| Pmm.Allocator.Init | kernel/src/pmm.rs:29-58 | a page is free if and only if a usable region based at or above 1 MiB covers it, and the counter is the number of free pages |
| Pmm.OfferedIsConventional | kernel/src/pmm.rs:29-58 | every page ever offered is conventional memory in the firmware's own map |
| Pmm.ConventionalIsOffered | kernel/src/pmm.rs:29-58 | and every conventional page whose descriptor was kept lies in a usable region, and is offered if that region starts at or above 1 MiB |
| Pmm.Allocator.AllocPage | kernel/src/pmm.rs:61-81 | the lowest free page, or none exactly if all are used; the word scan with its trailing-ones count is the bit-wise minimum; its bit and one of the counter are all that change |
| Pmm.Allocator.FreePage | kernel/src/pmm.rs:84-89 | freeing any address at all: the counter still equals the number of clear bits if and only if the page was allocated or out of range, and the whole invariant holds if and only if it was offered at boot, too; exactly that bit is cleared |
| Pmm.Allocator.AllocContiguous | kernel/src/pmm.rs:95-114 | the lowest run of that many free pages is claimed, or none exactly if there is no such run; the counter stays exact |
| Pmm.ClaimCount | kernel/src/pmm.rs:95-114 | claiming a run of free pages lowers the number of clear bits by its length |
| Heap.ClassFor | kernel/src/heap.rs:40-45 | the smallest class that covers size and alignment, less than twice the larger of them unless it is the smallest of all, none exactly above a page |
| Heap.ChunksDisjoint | kernel/src/heap.rs:47-88 | two chunks, free or live, of whatever classes and pages, never overlap |
| Heap.LiveDisjoint | kernel/src/heap.rs:47-110 | live allocations are pairwise disjoint and disjoint from every chunk on a free list |
| Heap.LiveFits | kernel/src/heap.rs:40-88 | every live allocation is at least as large as asked, aligned as asked and not null |
| Heap.SaveLoad | kernel/src/heap.rs:66-85 | a pointer stored byte by byte, least significant first, reads back |
| Heap.WriteKeeps | kernel/src/heap.rs:47-110 | any bytes written anywhere inside a live allocation leave every free list, stored as eight bytes in each freed chunk, intact |
| Heap.PutIntact | kernel/src/heap.rs:47-110 | and leave every byte of every other live allocation as it was |
| Heap.PopKeeps | kernel/src/heap.rs:66-71 | taking the head of a free list keeps all lists acyclic, linked through memory and disjoint from live chunks |
| Heap.PushKeeps | kernel/src/heap.rs:106-108 | putting a chunk back as the head keeps the same |
| Heap.SlabHeap.Carve | kernel/src/heap.rs:73-87 | carving a fresh page links all its chunks but the first into the class's list |
| Heap.SlabHeap.Alloc | kernel/src/heap.rs:47-88 | null exactly if the class list is empty and no page is free, or no run of pages exists; otherwise a fresh allocation; of the page allocator it takes nothing while the list has a chunk, else the lowest free page, and above a page the lowest run that is long enough, the counter falling by exactly that; all invariants hold and every byte of every live allocation is as it was; size zero returns the alignment |
| Heap.SlabHeap.Dealloc | kernel/src/heap.rs:90-110 | with the layout it was made with, the allocation ends; above a page exactly its pages are free again and the counter rises by their number, else the page allocator is not touched; all invariants hold and every byte of every other live allocation is as it was; null and size zero do nothing |
| Heap.GivenBack | kernel/src/heap.rs:90-104 | a run of pages taken and given back leaves every page as it was |
| Heap.SlabHeap.AllocDealloc | kernel/src/heap.rs:47-104 | the round trip above a page: bitmap, counter and live allocations are as they were, whether or not there was such a run |
| Heap.SlabHeap.ClientWrite | kernel/src/heap.rs:47-110 | a client write of any bytes at any offset inside a live allocation keeps the heap's invariants and every other allocation |
| HeapRuns.Session | kernel/src/heap.rs:40-116 | in every run of allocations, frees and client writes the allocations held are pairwise disjoint, aligned and not null, and every byte a client has stored reads as it last stored it, as computed from its calls and the pointers it got alone |
| Paging.PageOfInjective | kernel/src/paging.rs:32-35 | the four 9-bit indices, most significant first, spell the page number of every 48-bit address, so they determine the page, and the top one its half |
| Paging.GrowWalk | kernel/src/paging.rs:18-30 | linking a new empty table changes no translation in any space, and no USER path if linked with USER |
| Paging.LeafWalk | kernel/src/paging.rs:31-44 | a leaf entry is seen along its own path only |
| Paging.SharedPage | kernel/src/paging.rs:31-100 | spaces with the same entry in the top table see the same page below it, also after a mapping: entries above the leaves are only ever added |
| Paging.Memory.GetOrMake | kernel/src/paging.rs:18-59 | an existing entry is left as it is, a missing table is made empty; no translation changes; fails exactly for lack of a frame |
| Paging.Memory.Map | kernel/src/paging.rs:31-100 | the page translates to the new leaf; no other page of that space, and for a low page no page of any other space or of the kernel half, changes; user mode sees the leaf if and only if the leaf allows it and no table already on the path withheld USER; without memory nothing changes |
| Paging.Memory.MapPage | kernel/src/paging.rs:31-44 | the kernel variant: writable leaf, exactly that page changes |
| Paging.Memory.MapCurrentUser | kernel/src/paging.rs:70-83 | the loaded-space user variant: user mode reaches the page if and only if no existing table on the path lacked USER, which keeps USER paths everywhere |
| Paging.Memory.MapInto | kernel/src/paging.rs:87-100 | the unloaded-space user variant, with the caller's flags |
| Paging.Memory.CreateUserPml4 | kernel/src/process.rs:281-294 | the new space has the kernel half of the loaded one, an empty low half that user mode can walk, and no other space changes |
| ElfFormat.FlatIsSegment | kernel/src/elf.rs:39-120 | for separate segments the flat image is the file's bytes below filesz and zero up to memsz |
| ElfFormat.OutsideIsZero | kernel/src/elf.rs:83-94 | outside every segment's pages the flat image is zero |
| Elf.CopyWindow | kernel/src/elf.rs:96-114 | one page's copy window turns the page of the image without the segment into the page with it |
| Elf.LoadSegment | kernel/src/elf.rs:54-115 | after a segment the mapped pages are exactly those of the segments so far and each shows its part of the flat image |
| Elf.Load | kernel/src/elf.rs:20-121 | of any file: an error is the first check that fails in file order, or memory is exhausted, and then nothing taken has been given back; frames in use are untouched, every frame taken is a table or in the duplicate-free page list, and user mode can write those pages alone if it could write nothing before; of a file that stays below 2^47 also: the space reads as the flat image byte for byte and nothing else, even where segments share pages, and other spaces and the kernel half are untouched; of any file no two of whose pages are a multiple of 2^48 apart: every space that has a part of the upper half in common sees each page of the file there as one of the program's frames |
| ElfBytes.SegmentIs | kernel/src/elf.rs:46-62 | the segment read from program header `i` is the type, offset, address, file size and memory size at bytes 0, 8, 16, 32 and 40 of the entry at e_phoff + i * e_phentsize, each little-endian |
| ElfBytes.HeaderErrorIs | kernel/src/elf.rs:21-39 | each complaint about the file header in terms of the bytes that cause it; none exactly for the header of a little-endian x86-64 executable |
| ElfBytes.TakenIff | kernel/src/elf.rs:20-70 | the checks pass if and only if the header is that of an executable and every program header and the bytes it asks for are in the file; otherwise the complaint is about the first that is not |
| ElfBytes.ImageSays | kernel/src/elf.rs:54-115 | in terms of the file's own bytes: an address reads the byte at p_offset + (address - p_vaddr) of the last program header to supply one, zero elsewhere on the pages some header asks for, and nothing anywhere else |
| ElfBytes.LoadBytes | kernel/src/elf.rs:20-121 | of any file: it is taken, unless memory runs out, if and only if its bytes are sound and ask for some memory; the entry point is the word at byte 24; and if it stays below 2^47 the space reads as above, address by address |
| Elf.HighPage | kernel/src/elf.rs:72-92 | the missing check: after a load, a page of the file in the upper half is a frame of the program in every space that has the same present entry for it in the top table |
| Elf.BelowIndices | kernel/src/elf.rs:68-75 | no file that stays below 2^48 has two pages with the same indices |
| ElfWitness.HighIsFine | kernel/src/elf.rs:20-70 | a file of 120 bytes with one page at 2^47 passes every check of the loader |
| ElfWitness.HighLoad | kernel/src/elf.rs:72-92 | loading it puts a frame of the program at the start of the upper half of every space that has that part in common, unless memory runs out |
| Elf.SegmentReads | kernel/src/elf.rs:39-120 | for separate segments every address reads its file byte below filesz and zero from there to memsz |
| Process.SetUp | kernel/src/process.rs:462-473 | what a program that stays below 2^47 finds when it starts: its image byte for byte wherever the stack is not, nothing besides, and eight zeroed stack pages of its own, writable from user mode, with the kernel half of the loading task above; and that user mode can write its own pages alone if the kernel half is private; pages of the file in the upper half are seen by other spaces as `Elf.Load` says; it fails only with the first check the file fails or with nothing free, and then gives nothing back: the root, the tables and the pages stay in use |
| Process.TearDown | kernel/src/process.rs:491-496 | the stack, the pages and the root are freed, each in use until then and each once; nothing else is, and no other space changes |
| ProcessRun.UserStore | kernel/src/process.rs:484-486 | a store from user mode changes one byte of one frame of the program or of a granted one; no store reaches a page table or a free frame |
| ProcessRun.MapMmioForUser | kernel/src/process.rs:105-119 | mapped if and only if the request is not empty, at most 16 MiB and inside one granted range, and then on as few pages as hold it, at the arena's next pages: every byte of the request is seen at its own physical address, writable from user mode and uncached, and no other low page of the space and no other space changes, while the arena stays below 2^47; from there to 2^48 every space with that part of the upper half in common sees the same frames; it panics only with nothing free |
| ProcessRun.MapAnonForUser | kernel/src/process.rs:137-150 | mapped if and only if the request is not empty and at most 64 MiB, on as few pages as hold it, at the arena's next pages: every byte of it reads zero from a frame that was free; seen by other spaces as above; without memory the call gives 0, keeps the frames it took, and has moved the arena on all the same; it panics only with nothing free |
| ProcessRun.Serve | kernel/src/process.rs:105-150 | one step of the program does exactly what it asks: a store its one byte, a mapping its pages of the arena, anonymous memory fresh zeroed frames, fewer than asked only when none is left; it panics only with nothing free |
| ProcessRun.Program | kernel/src/process.rs:100-150 | any sequence of stores and mappings: user mode can only ever write the program's own frames and granted ones, frames in use before keep their bytes unless granted, and the frames taken are the tables and the memory asked for; it panics only with nothing free |
| ProcessRun.RunElf | kernel/src/process.rs:457-499 | a program's whole life, whatever it stores and maps: every frame that was free is free again except exactly the tables below its root and the memory it got, which nothing frees and which is all it asked for unless memory ran out; frames in use hold what they held unless granted; and every other space reads as before if file and arena stayed below 2^47; an error is the first check the file fails or that nothing is free, and then every frame taken stays in use, a root that nobody will free among them |
| ProcessRun.LowIff | kernel/src/paging.rs:70-77 | a page of the arena below 2^48 is in the lower half of the space if and only if its number is below 2^35 |
| ProcessRun.ArenaEnd | kernel/src/process.rs:137-144 | that condition can fail: the arena moves on even when a call gets nothing, and after 2,097,128 calls for 64 MiB its next page is the first of the kernel half |
| ProcessRun.ArenaSpills | kernel/src/process.rs:105-119 | and then it matters: after any steps that have moved the arena there, the next mapping of granted memory, unless the kernel panics with nothing free, appears in every other space that has that part of the upper half in common |
| Scheduler.Scan | kernel/src/scheduler.rs:160-166 | the first ready task after the current one, cyclically, or none exactly if no other is ready |
| Machine.SwitchIff | kernel/src/scheduler.rs:143-178 | `next` switches if and only if another task is ready, or sleeps and its time has come |
| Machine.NextTable | kernel/src/scheduler.rs:143-178 | after `next` at most one task runs and it is the current one; nobody wakes early and nobody but the current task sleeps past its time; nobody dies or revives |
| Machine.NextFair | kernel/src/scheduler.rs:143-178 | with every switch each ready task is chosen or gets strictly closer |
| Machine.Cpu.constructor | kernel/src/main.rs:815-826 | the machine as booted, with tasks 0, 1 and 2, the id counter at 2 and interrupts on, satisfies the invariant |
| Machine.Cpu.Dispatch | kernel/src/scheduler.rs:402-430 | after a switch CR3, the syscall stack and the interrupt stack are the current task's; a new task acknowledges the timer and turns interrupts on, a preempted one acknowledges it and gets its own flag back, one suspended in `sleep_ms` or `block_on_irq` inherits the flag of whoever switches to it; one suspended in a system call has GS toggled and its own user stack pointer back |
| Machine.Cpu.Tick | kernel/src/scheduler.rs:376-385 | a tick whenever interrupts are on and the timer is acknowledged, inside system calls, too: it keeps the machine invariant, wakes only expired sleepers and waiters of its vector, is fair, and leaves GS and the user stack slot as they are |
| Machine.Cpu.SleepMs | kernel/src/scheduler.rs:253-272 | the task sleeps `ms / 10` ticks, at least one, or returns at once with its slot as it was when no other task is ready |
| Machine.Cpu.BlockOnIrq | kernel/src/scheduler.rs:322-353 | blocking inside a system call hands GS back and keeps the caller's user stack pointer with the task |
| Machine.Cpu.WakeIrqWaiters | kernel/src/scheduler.rs:360-368 | exactly the tasks blocked on that vector become ready, waiting for nothing, and no other changes |
| Machine.Cpu.ExitCurrent | kernel/src/scheduler.rs:235-246 | the task is dead and the machine invariant holds |
| Machine.Cpu.Spawn | kernel/src/scheduler.rs:213-229 | the new task takes the first dead slot or a new one, with the loaded CR3 and the counter's id; no slot in use is overwritten; another task has the same id if and only if it is the first id given out and the boot task with that id is still in the table |
| Machine.Cpu.SyscallEnter | kernel/src/syscall.rs:257-265 | entry turns interrupts off and toggles GS; unless GS has been mixed up before, it is the kernel's then, and the stack is the current task's own, which no other task has |
| Machine.Cpu.SyscallReturn | kernel/src/syscall.rs:302-307 | the task gets what the shared slot holds and interrupts on; unless GS has been mixed up before, that is the user stack pointer it entered with, and GS is the user's again |
| Machine.Cpu.DoExit | kernel/src/process.rs:349-369 | leaving a process for good from inside a system call undoes the GS toggle |
| Machine.Cpu.EnterRing3 | kernel/src/process.rs:312-340 | ring 3 starts with interrupts on, and nothing else changes |
| Machine.Cpu.LoadCr3 | kernel/src/process.rs:482-482 | the first store of the pair: the live CR3 is the new root, the record is not yet |
| Machine.Cpu.RecordCr3 | kernel/src/scheduler.rs:204-208 | the second store: record and live CR3 agree afterwards if and only if the task was not switched away from since the first, or goes back to the root it had |
| MachineRuns.Run | kernel/src/scheduler.rs:143-430 | every interleaving of system calls, blocking waits, ticks wherever interrupts are on, other interrupts, sleeps, spawns inside and outside system calls, exits, entries to ring 3 and CR3 changes is a run: each event happens exactly when it can and does what it says, the machine invariant holds all along, and no step wakes a task early or is unfair |
| MachineFacts.AlwaysSane | kernel/src/idt.rs:222-235 | in a whole run GS is the kernel's exactly inside system calls, and the shared user stack slot the current task's there, if and only if no tick in it switches away from inside a system call |
| MachineFacts.MixesIff | kernel/src/scheduler.rs:376-385 | a tick does that if and only if it comes inside a system call, with interrupts on and the timer acknowledged, while some other task is ready, sleeps and its time has come, or waits for that vector |
| MachineFacts.HotIs | kernel/src/scheduler.rs:412-430 | before that, interrupts are on inside a system call if and only if the current task was last resumed there by a switch another task made with interrupts on, and has not left since |
| MachineFacts.ColdRun | kernel/src/scheduler.rs:322-353 | so a run in which no task exits or sleeps with interrupts on straight into a blocked system call never mixes GS up |
| MachineWitness.MixedRun | kernel/src/scheduler.rs:235-246 | a run that does, from boot: a driver waits for an interrupt, a task spawned before it exits just after that interrupt, and the next tick leaves the kernel's GS to a task outside any system call |
| MachineFacts.RecordIs | kernel/src/scheduler.rs:107-111 | in every run the root in a task's record is the one that was live when it was spawned, until it records another itself |
| MachineFacts.HeirKeeps | kernel/src/scheduler.rs:219-229 | so a task spawned inside a process's system call keeps that process's root, whatever the process does with it meanwhile |
| MachineWitness.HeirRun | kernel/src/syscall.rs:954-961 | and runs on it after it is freed, from boot: a process spawns a task inside a system call, goes back to the root it came from, as it does before it frees its own, and exits; the task starts on the process's root |
| MachineFacts.ReturnsOwn | kernel/src/syscall.rs:257-307 | in every run a return to ring 3 happens exactly inside a system call and, unless a tick has switched away from inside one before, hands the task the stack pointer of the latest entry delivered while it was current, whatever other tasks did in between |
| MachineFacts.Cr3Iff | kernel/src/process.rs:482-490 | in every run, outside the two stores, the live CR3 is the current task's own if and only if its latest record was not late: a different root, recorded after a switch away |
| MachineFacts.AlwaysOwn | kernel/src/process.rs:482-490 | a whole run keeps CR3 and records equal outside the two stores if and only if no root is recorded late in it |
| MachineWitness.TornRun | kernel/src/process.rs:482-483 | the failing run, from boot: a spawned task loads a root, ticks go once around the table, it records the root, and from then on runs in its old space under the new one's name |
| MachineWitness.FirstSpawn | kernel/src/scheduler.rs:213-213 | the first task spawned after boot has the id of the third boot task, which is alive |
| MachineFacts.NoStarvation | kernel/src/scheduler.rs:143-178 | while the table does not grow, a ready task is chosen within (tasks - 1) switches |
| MachineFacts.WakesOnTime | kernel/src/scheduler.rs:143-178 | in every run a sleeper is woken, or chosen, at the latest by the first tick at or after its time |
| MachineFacts.SleeperRuns | kernel/src/scheduler.rs:143-178 | so while the table does not grow it is passed over by at most (tasks - 2) switches after that tick |
| AhciMailbox.NextKeeps | kernel/src/ahci.rs:572-629 | every step of either side keeps the mailbox invariant until a wait times out |
| AhciMailbox.TransferKeeps | userspace/ahcid/src/main.rs:203-214 | while the driver moves sectors, exactly the sectors so far of exactly the posted request have moved |
| AhciMailbox.ReturnsAtomic | kernel/src/ahci.rs:572-629 | in every interleaving without a timeout a call that returns true did what an atomic sector store does, and no call at all touches a sector it did not name |
| AhciMailbox.ChangesOnlyInWrites | userspace/ahcid/src/main.rs:203-214 | the disk changes only while the kernel waits for a write, one sector at a time, to that sector of the caller's own data |
| AhciMailbox.CanServe | kernel/src/ahci.rs:572-629 | every request that fits the buffer and the disk can be served: any run that leaves both sides idle goes on to one in which the call returns true, with the sectors written or read, and both sides idle |
| AhciMailbox.LostIff | kernel/src/ahci.rs:578-583 | a request about to be posted can be lost, without any timeout, if and only if `op` is not idle at that moment, which the kernel could read and does not |
| AhciMailbox.LosingRun | userspace/ahcid/src/main.rs:203-215 | such a run: a read is answered and taken, and the next one posted before the driver has cleared the first |
| AhciMailbox.LostForever | kernel/src/ahci.rs:585-591 | a lost request is never answered: its wait can only time out |
| AhciMailbox.TimeoutBreaksIt | kernel/src/ahci.rs:592-600 | a run in which a wait timed out and a later read returns true with another sector's bytes: the promise needs the absence of timeouts |
| GopHandshake.NoTearing | kernel/src/framebuffer.rs:77-146 | whenever the compositor acknowledges a flush, there is one instant, that of the acceptance of this very request and of no other since, at which the back buffer and the cursor were what its rows and its cursor now show, however rendering, wrapping counters, stops and restarts interleave |
| GopHandshake.Frozen | kernel/src/framebuffer.rs:253-277 | while a flush is unacknowledged no step but a relaunch changes the snapshot, its range or its cursor |
| GopHandshake.Exclusive | kernel/src/framebuffer.rs:253-277 | kernel and compositor never use the snapshot buffer at the same time |
| GopHandshake.DroppedIff | kernel/src/framebuffer.rs:261-263 | a flush is dropped if and only if the previous one is unacknowledged, also across the wrap of the 32-bit counters |
| GopHandshake.CanFlush | kernel/src/framebuffer.rs:253-277 | every flush can be shown: any run that leaves the compositor polling and nothing outstanding goes on to one in which the rows asked for, cut to the screen, and the cursor are shown, and no other row has changed |
| GopHandshake.ControlKeeps | kernel/src/framebuffer.rs:359-372 | stopping and relaunching with a zeroed mailbox keeps the handshake invariant |
| GopHandshake.PollKeeps | userspace/gopd/src/main.rs:118-149 | the compositor's polling and acknowledging keeps the handshake invariant |
| NvmeRing.Ring.Submit | kernel/src/nvme.rs:353-359 | the slot at the tail carries the command, every word of it, with the id in the high half of the first; no other slot changes, the doorbell holds the next slot, the ring invariant is kept |
| NvmeRing.HeadEntry | kernel/src/nvme.rs:361-367 | the entry at the head carries the expected phase tag if and only if the device has answered, and then it is the answer: a stale entry is never taken |
| NvmeRing.Ring.Wait | kernel/src/nvme.rs:361-386 | consumes exactly one completion, the one of this command, and returns its code; times out exactly if the device stays silent for every spin |
| NvmeRing.Ring.Issue | kernel/src/nvme.rs:353-386 | one command, submitted and waited for: it reached the device as it was, its own code comes back, and its completion is consumed exactly if it came in time |
| NvmeRing.Ring.Session | kernel/src/nvme.rs:205-273 | for any number of commands past any number of wraps, up to the first timeout, on which every caller panics: each gets its own code, the head is the number of completions mod 64 and the phase flips once per lap; every command reached the device as it was |
| Checksum.FoldKeeps | kernel/src/net.rs:101-101 | one fold keeps the ones' complement value and strictly decreases, so the loop ends |
| Checksum.WordSumBytes | kernel/src/net.rs:93-100 | the words are big-endian: bytes at even positions count 256 times, the others once, a last odd one like an even one |
| Checksum.U32Value | kernel/src/net.rs:225-244 | sequence numbers go out most significant byte first |
| Checksum.IpChecksum | kernel/src/net.rs:93-103 | for up to 131074 bytes, odd lengths included, the 32-bit sum does not overflow and the result is the complement of the ones' complement sum |
| Checksum.StoredVerifies | kernel/src/net.rs:93-118 | with the checksum stored at any even offset, recomputing gives zero, for every content and length |
| Checksum.IpPacket | kernel/src/net.rs:105-122 | every header field is in its place, the header checks to zero and the payload follows |
| Checksum.CoveredSum | kernel/src/net.rs:212-223 | what the TCP checksum covers adds up to both addresses, protocol number 6, the length and the segment |
| Checksum.TcpChecksum | kernel/src/net.rs:212-223 | the complement of the ones' complement sum of both addresses, protocol number 6, the length and the words of the segment |
| Checksum.SendSegment | kernel/src/net.rs:225-244 | for every segment the packet fits, its header and its segment both check to zero and every field is where the receiver looks, the segment against addresses, protocol number 6 and length |

## Left out

- Pmm.Allocator.Init: does not state the total-pages statistic, which nothing decides on.
- `lookup`, `stat`, `probe` and `copy_entry_unique` of HepFS, and the superblock: path splitting and thin wrappers over the modelled operations.
- HepfsRuns.Run: is about clients that neither create a taken name nor move an entry below itself; `HepfsCreate.Create` and `HepfsOps.MoveEntry` say exactly what such a call breaks.
- HepfsStore.Volume.AllocBlock: a free bit past the end of the disk is modelled as the panic of the NVMe driver; with AHCI the failed write is ignored.
- Time stamps of HepFS inodes are stored and read back but no clock is modelled.
- Elf.Load: sums of header fields are mathematical, so a field whose sum would pass 2^64 is reported as out of bounds, or mapped, where the code would overflow.
- The kernel root's low half, which aliases the direct map during boot, is outside the claims about translation.
- TLB invalidation, caches and instruction-level effects; context switching is its effect on the modelled registers.
- ProcessRun.RunElf: one program at a time; what other tasks map or free meanwhile, what the kernel writes into its memory on its behalf, and memory after a kernel panic are not in it.
- The pixels of the compositor's cursor: the model has the cursor it draws, not the drawing.
- The `nvmed` and AHCI command engines and the hand-over of the NVMe queue to `nvmed`; the ring is the kernel's own.
- A driver whose device answers after the driver itself has given up: the kernel panics on the timeout, so nothing of the ring is used after it.
- The other system calls, I/O ports, the network stack beyond its checksums, USB, audio, the desktop and the shell.
