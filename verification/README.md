# xv6-riscv in Dafny

A model of the parts of xv6-riscv whose correctness is hard to see, with proofs
of what they promise. `dafny verify dfyconfig.toml` checks all of it.

| file | what it models |
|---|---|
| `Log.dfy` | the redo log: group commit, the order of disk writes, power failures, recovery |
| `BufferCache.dfy` | the buffer cache with its circular list |
| `Handles.dfy`, `LogCache.dfy` | the log over the buffer cache: operations, readers and a commit that interleave |
| `Blocks.dfy`, `Fs.dfy` | the block bitmap, the block map of inodes, file contents, truncation, reclaiming, the write loop |
| `Itable.dfy` | the table of in-memory inodes with its references |
| `Links.dfy` | directories and link counts: create, link, unlink |
| `PageTable.dfy`, `Vm.dfy`, `Fork.dfy` | physical pages, the Sv39 page tree, user memory, the memory side of fork |
| `SleepLock.dfy`, `ExitWait.dfy` | sleep and wakeup, exit, wait and reparent as interleaved steps |
| `Pipe.dfy` | the ring buffer with 32-bit counters |
| `Malloc.dfy` | the K&R allocator of the C library |
| `Shell.dfy` | the shell's parser |
| `Regexp.dfy`, `Rand.dfy` | the matcher of grep and the random generator of grind |
| `Common.dfy` | what several of them share |

**How it is built.** Code that updates state is a class with methods that follow
the source statement by statement. The invariant is a set of predicates on
values, one small lemma shows that one step keeps one of them, and the methods
call these lemmas. Protocols between processes are transition systems; their
theorems are about every run from the initial state. A `panic` is a precondition
where the caller has to avoid it, and an `assert false` where it is shown to be
unreachable.

**What is ghost.** Ghost state says what the code only implies: who uses a block
or a page (a map from it to its one place, which rules out sharing), what the
disk would hold without a cache, the history of logged writes, the bytes sent
through a pipe.

**Assumptions.** One block write is atomic and completes. Copies between kernel
and user memory succeed in `readi` and `writei`. `virtio_disk_rw` is one read or
write of a block. `sbrk`, the physical address of the trampoline page, path
lookup, and whether a directory can grow are parameters. Spinlocks are atomic;
methods of the file system, the cache and the page tables are the sections that
run under their locks.

**Where the code is not what its comments or names suggest**, the model follows
the code.

- `log_write` tests for a full log before it looks for a block to absorb, so an
  operation that has dirtied all of its `MAXOPBLOCKS` blocks can hit the panic by
  rewriting one of them. `Log.TooBigTransaction` is such a run; it cannot happen
  while some operation has dirtied fewer (`Log.Log.LogWrite`).
- The cache has as many buffers as the log has blocks, and `log_write` pins a
  buffer for each logged block. When the log is full, every buffer is pinned and
  the first `bread` of `commit` is the panic "no buffers".
  `LogCache.FullLog` is such a run, with three operations that each stay within
  `MAXOPBLOCKS`; when nobody else has a block, `LogCache.LoggedCache.Commit` goes
  through exactly if fewer blocks than buffers are logged.
- `create` and `link` do not look at the link count of the directory they write
  to. In a directory that has been removed and is still in use the counts go
  wrong: `Links.RemovedDirectory`. The count is a 16-bit `short` that nobody
  checks: in `Links.TooManyLinks` a file gets 32767 names in two directories, one
  more makes its count negative, and then `unlink` panics.
  `Links.Directories.Create`, `LinkBegin` and `LinkEnd` state exactly when the
  counts stay right.
- `binit` gives every buffer the key (0, 0), so keys are unique only for devices
  other than 0.
- `proc_pagetable` handles a failure of its second `mappages`, which cannot
  happen: the trapframe is in the same leaf table as the trampoline
  (`Fork.ProcPagetable`).
- `freeproc` frees the trapframe page while it is still mapped; the invariant of
  the page tables therefore speaks of frames that an address space owns.
- `itrunc` frees the blocks named by an indirect block without clearing the numbers
  in it; `LinksBut` is the invariant for that.
- `kernel/sleeplock.h` holds a copy of `spinlock.h`; the fields of a sleeplock are
  those that `kernel/sleeplock.c` uses.

## Model

| member | source | states |
|---|---|---|
| `Log.Log.constructor` | kernel/log.c:53-63 | From any disk with a well-formed header, the log starts in the running state on the file system that recovery gives, with no operation and no history. |
| `Log.Log.BeginOp` | kernel/log.c:127-144 | An operation is admitted exactly if no commit is under way and its reservation fits with all others; otherwise nothing changes. |
| `Log.Log.Absorb` | kernel/log.c:220-233 | The header gains the block exactly if it was not there; entries stay distinct and in place. |
| `Log.Log.LogWrite` | kernel/log.c:215-236 | The write succeeds exactly if the log is not full, and always while some active operation has dirtied fewer than MAXOPBLOCKS blocks; it extends the history by one update and never happens during a commit. |
| `Log.RoomLeft` | kernel/log.c:215-236 | Entries in the header plus unspent reservations fit in the log, so an operation with a reservation left finds room. |
| `Log.Log.EndOp` | kernel/log.c:147-170 | The panic "log.committing" is unreachable, and a commit starts exactly when the last operation ends. |
| `Log.Log.WriteLog` | kernel/log.c:179-191 | After any number of block writes, exactly the first entries are copied to the log and no home block has changed. |
| `Log.Log.WriteHead` | kernel/log.c:102-115 | The header block holds n and the block numbers; it reaches the disk in one write or not at all. |
| `Log.Log.InstallTrans` | kernel/log.c:66-84 | After any number of block writes, exactly the first entries have been copied home. |
| `Log.Log.ReadHead` | kernel/log.c:86-100 | The in-memory header is the one on the disk. |
| `Log.Log.Commit` | kernel/log.c:194-204 | Stopped after any number of disk writes, the disk recovers to the state before the transaction if the header write had not happened and to the complete transaction otherwise; it says exactly which. |
| `Log.CommittedRecovers` | kernel/log.c:66-124 | A disk with a complete log and header recovers to the transaction, whichever home blocks were already installed. |
| `Log.UncommittedRecovers` | kernel/log.c:179-204 | A disk with an empty header recovers to the old state, whatever is in the log. |
| `Log.Log.EndOpCommit` | kernel/log.c:147-176 | A commit at a power failure makes the whole history durable or leaves the durable part as it was; it never splits an operation. |
| `Log.Log.LosePower` | kernel/log.c:117-124 | After a power failure in any state, the disk still recovers to exactly the committed operations; every other operation is lost as a whole, and no committed one is. |
| `Log.Log.Recover` | kernel/log.c:117-124 | Recovery, itself stopped after any number of writes, keeps the state that the disk recovers to, and reaches it if it is not stopped. |
| `Log.Log.Reboot` | kernel/log.c:117-124 | A reboot keeps exactly the durable history; the interrupted recovery can be repeated any number of times. |
| `Log.Log.Run` | kernel/log.c:127-236 | Over every script of begins, writes, ends with commits, power failures and reboots, the disk always recovers to whole operations and the durable history only grows; each event of the script does exactly its part between two moments of the trace, or nothing if it is not possible. |
| `Log.TooBigTransaction` | kernel/log.c:215-229 | A run of three operations that each dirty MAXOPBLOCKS blocks: the log is full, and rewriting a block that is logged already reaches the panic for a too big transaction. |
| `BufferCache.Bcache.constructor` | kernel/bio.c:126-176 | The initial list is a ring of all buffers, none valid or referenced. |
| `BufferCache.Unlink` | kernel/bio.c:392-393 | Taking a buffer out of the doubly linked list gives the ring without it, in both directions. |
| `BufferCache.LinkFront` | kernel/bio.c:394-397 | Putting it behind the head gives the ring with it in front, in both directions. |
| `BufferCache.Bcache.FindKey` | kernel/bio.c:195-215 | The forward scan finds a buffer with the key exactly if there is one. |
| `BufferCache.Bcache.FindFree` | kernel/bio.c:227-258 | The backward scan finds the least recently used buffer without references, or there is none. |
| `BufferCache.Bcache.Bget` | kernel/bio.c:181-269 | It fails exactly if the block is not held and every buffer is referenced; it reuses the holder, or recycles the least recently used free buffer and nothing else. |
| `BufferCache.Bcache.Lock` | kernel/bio.c:199-201 | Taking the sleeplock keeps the table. |
| `BufferCache.Bcache.Fill` | kernel/bio.c:272-316 | The data read is the latest contents of the block, as if there were no cache. |
| `BufferCache.Bcache.Bread` | kernel/bio.c:272-316 | It gives the latest contents, or the caller waits with its reference exactly if somebody has the buffer locked; no other buffer changes, and a referenced buffer keeps its block. |
| `BufferCache.Bcache.Store` | kernel/fs.c:52-60 | A change by the lock holder, before it is logged, becomes the latest contents of exactly that block. |
| `BufferCache.Bcache.Bwrite` | kernel/bio.c:319-352 | Exactly this block is written, and the disk then holds its latest contents. |
| `BufferCache.Bcache.Bpin` | kernel/bio.c:408-428 | One more pin and one more reference. |
| `BufferCache.Bcache.Bunpin` | kernel/bio.c:431-458 | One less; the count never goes below the references of others. |
| `BufferCache.Bcache.Brelse` | kernel/bio.c:356-405 | For a buffer that is pinned or equal to its disk block, the invariant is kept; the last release moves it to the front of the ring. |
| `BufferCache.TableFacts` | kernel/bio.c:181-458 | In every state of the cache: one buffer per key of a device other than 0, counts are exact, a valid buffer is up to date, a valid buffer without references equals its disk block. |
| `Handles.FreeBuffer` | kernel/bio.c:227-269 | With no reference but the pins, and fewer pinned blocks than buffers, bget finds a buffer for any block. |
| `Handles.AllPinned` | kernel/bio.c:227-269 | With as many pinned blocks as buffers, bget finds none for a block that is not pinned. |
| `LogCache.LoggedCache.constructor` | kernel/log.c:53-63 | A cache without references, over a disk with an empty log, satisfies the invariant. |
| `LogCache.LoggedCache.BeginOp` | kernel/log.c:127-144 | An operation is admitted exactly if no commit is under way and its reservation fits; the invariant holds. |
| `LogCache.LoggedCache.EndOp` | kernel/log.c:147-176 | The last operation starts the commit if something is logged; with nothing logged all changes are on the disk already. |
| `LogCache.SyncedNow` | kernel/log.c:147-176 | When no operation is under way, only logged blocks differ between the disk and the latest contents, whatever readers hold or have locked. |
| `LogCache.LoggedCache.Bget` | kernel/bio.c:181-269 | A process gets a reference, or the panic exactly if no buffer is free; whatever is recycled, no logged block loses its buffer, also during a commit. |
| `LogCache.LoggedCache.Lock` | kernel/bio.c:272-316 | bread gives the contents last stored in the block, at any point of a commit. |
| `LogCache.LoggedCache.Modify` | kernel/log.c:206-214 | A change by an operation extends the history by one update; the disk recovers to what it did before. |
| `LogCache.LoggedCache.LogWrite` | kernel/log.c:215-236 | The header gains the block exactly if it is not there and keeps all others, its buffer has exactly one pin and no other pin changes; a full log is the panic. |
| `LogCache.LoggedCache.Brelse` | kernel/bio.c:356-405 | A block whose change is logged can be given back at any time; it stays pinned, and the invariant holds. |
| `LogCache.LoggedCache.CommitOpen` | kernel/log.c:75-76 | The two breads at the head of either loop: the panic exactly if no buffer is free for the log block, and the home block is always found. |
| `LogCache.LoggedCache.CommitCopy` | kernel/log.c:185-190 | Log block and disk get the latest contents of the home block, the same change as in `Log.Log.WriteLog`; the disk recovers to the old state. |
| `LogCache.LoggedCache.CommitHeader` | kernel/log.c:103-115 | One write of the header makes all changes so far durable, or the panic leaves the old state. |
| `LogCache.LoggedCache.CommitInstall` | kernel/log.c:77-82 | The home block on disk gets the contents of the log block, which are its latest contents already; its pin goes and the disk recovers to the new state. |
| `LogCache.LoggedCache.CommitClear` | kernel/log.c:201-202 | The header is empty, all pins are gone, and every change is home on the disk. |
| `LogCache.LoggedCache.WriteLog` | kernel/log.c:179-191 | Over the cache, without interruption: the disk and the latest contents change as `Log.Log.WriteLog` says. |
| `LogCache.LoggedCache.InstallTrans` | kernel/log.c:66-84 | Over the cache, without interruption: the disk changes as `Log.Log.InstallTrans` says, and nothing is pinned afterwards. |
| `LogCache.LoggedCache.Commit` | kernel/log.c:194-204 | When nobody else has a block it finishes exactly if fewer blocks are logged than there are buffers; then all changes are durable and home and no buffer is pinned, otherwise it panics with the disk unchanged. |
| `LogCache.LoggedCache.Run` | kernel/log.c:66-236 | Every interleaving of operations, readers and the sections of commit keeps the invariant; history, answers and the durable part only grow; each event does its part between two moments of the trace, with its panics exactly, or nothing if it is not possible. |
| `LogCache.LoggedCache.Promises` | kernel/log.c:66-236 | The invariant says that a power failure now recovers to whole committed operations, that every bread was answered with what was last stored, and that exactly the logged blocks not yet installed are pinned, once each, in valid buffers. |
| `LogCache.FullLog` | kernel/log.c:179-191 | A run of three operations within their reservations that fills the log and pins every buffer: the commit panics. |
| `Blocks.WordSet` | kernel/fs.c:432-438 | Setting one word of an indirect block changes that word and no other, in little-endian bytes. |
| `Blocks.PackedSet` | kernel/fs.c:77-79 | Setting the bit of a block in its bitmap byte marks that block and no other. |
| `Blocks.PackedClear` | kernel/fs.c:99-104 | Clearing it frees that block and no other. |
| `Blocks.NoSharing` | kernel/fs.c:406-445 | No block is used in two places of any files, or as data and as an indirect block. |
| `Blocks.NoSharedIndex` | kernel/fs.c:406-445 | No two inodes share an indirect block. |
| `Blocks.LinkDirect` | kernel/fs.c:412-420 | A new direct block is one more address, and ownership stays consistent. |
| `Blocks.LinkIndex` | kernel/fs.c:424-430 | A new, zeroed indirect block adds no address. |
| `Blocks.LinkIndirect` | kernel/fs.c:431-441 | A new block in the indirect block is one more address, and no other inode sees it. |
| `Blocks.UnlinkDirect` | kernel/fs.c:456-461 | Freeing a direct block keeps ownership consistent. |
| `Blocks.UnlinkIndirect` | kernel/fs.c:466-469 | So does freeing an indirectly addressed block, although its number stays in the indirect block. |
| `Blocks.UnlinkIndex` | kernel/fs.c:471-472 | Freeing the indirect block after all of its entries restores the full invariant. |
| `Fs.Fs.constructor` | mkfs/mkfs.c:234-248 | A file system without files, whose bitmap marks the blocks before the data area, satisfies the invariant. |
| `Fs.Fs.Balloc` | kernel/fs.c:67-90 | The lowest free block, marked and zeroed, or 0 exactly if the bitmap is full; no byte of any file changes. |
| `Fs.Fs.Bfree` | kernel/fs.c:93-107 | Exactly this bit is cleared, and it was set. |
| `Fs.Fs.LoadIndex` | kernel/fs.c:424-430 | The indirect block is there or the disk is full; no address and no byte of any file changes. |
| `Fs.Fs.Bmap` | kernel/fs.c:406-445 | The address of the block, 0 only if the disk is full; only this address can change, from 0, and no byte of any file; nothing changes if the block was there. |
| `Fs.Fs.WriteBlock` | kernel/fs.c:541-551 | Within one block: exactly these bytes of this file change, and every changed block is logged. |
| `Fs.Fs.WriteBlocks` | kernel/fs.c:540-552 | All bytes, or as many as fit on the disk; there is no hole before the end of what is written. |
| `Blocks.PutInode` | kernel/fs.c:232-240 | Slot s of the block holds the inode, little endian, and every byte of the other inodes and of the device numbers is as it was. |
| `Fs.Fs.Iupdate` | kernel/fs.c:227-243 | The inode is in its slot of its block, every other inode of the table is stored as before, and only its block is logged. |
| `Fs.Fs.Writei` | kernel/fs.c:529-563 | -1 exactly for a range that starts after the end or is too long, and then nothing changes; otherwise the file is the old one with the written prefix at off, short only where the disk is full and the next block is missing; its size is the maximum, every other file is unchanged, the inode is on disk; every block that changed is logged, and the logged blocks are those of the range, the indirect block, the bitmap and the inode block. |
| `Fs.Fs.WriteThenRead` | kernel/fs.c:495-563 | A readi after a writei of the same range gives the bytes written, all of them if all were written. |
| `Fs.Fs.Readi` | kernel/fs.c:495-521 | The bytes of the file in the range, cut at its end; nothing at all changes, so it never allocates. |
| `Fs.Fs.TruncDirect` | kernel/fs.c:456-461 | The direct blocks become free, and the rest stays owned. |
| `Fs.Fs.TruncIndirect` | kernel/fs.c:463-473 | All other blocks of the inode become free. |
| `Fs.Fs.Itrunc` | kernel/fs.c:449-477 | Exactly the bits of this file are cleared, "freeing free block" is unreachable, every other file is unchanged; every block that changed is logged, and only bitmap and inode blocks are. |
| `Fs.Fs.FreeInode` | kernel/fs.c:343-360 | The last release of an inode without links frees its blocks and the inode, in memory and on disk; every block that changed is logged. |
| `Fs.Fs.Ireclaim` | kernel/fs.c:374-394 | Afterwards no inode is allocated without links, and every inode that had links is unchanged with its contents; one transaction per inode logs all that changed, in at most 2 blocks if the bitmap is one block. |
| `Fs.DirtyFew` | kernel/file.c:320-356 | One chunk of a write logs at most 7 distinct blocks if the bitmap is one block. |
| `Fs.Fs.WriteChunk` | kernel/file.c:336-345 | One transaction: exactly the prefix that was written changes, short only where the disk is full, all changes are logged, in at most 7 blocks if the bitmap is one block. |
| `Fs.Fs.FileWrite` | kernel/file.c:320-356 | The chunks together write data[0, n) at the offset when n is returned, and a prefix whose length the offset shows otherwise; -1 only for an offset after the end, a file that would be too large, or a full disk, and always for the first two unless there is nothing to write; no other file changes; the transactions together log all that changed. |
| `Itable.Table.constructor` | kernel/fs.c:183-192 | An empty table satisfies the invariant. |
| `Itable.Table.Ialloc` | kernel/fs.c:210-214 | Taking a free inode on disk contradicts no entry that is valid and not locked, also while an iput is freeing it. |
| `Itable.Table.Iget` | kernel/fs.c:248-279 | It fails exactly if the inode is not in the table and no entry is unused; an inode in use gets no second entry, no entry in use is recycled, and otherwise it is the first unused one. |
| `Itable.Table.Idup` | kernel/fs.c:283-290 | One more reference. |
| `Itable.Table.Ilock` | kernel/fs.c:294-319 | The entry is what is on disk, whoever changed it last. |
| `Itable.Table.Iupdate` | kernel/fs.c:227-243 | The copy on disk is that of the entry, and every other entry still agrees with the disk. |
| `Itable.Table.Iunlock` | kernel/fs.c:322-329 | After an iupdate, the entry agrees with the disk. |
| `Itable.Table.IputBegin` | kernel/fs.c:341-350 | The inode is to be freed exactly if this is the last reference to a valid entry without links; nobody has it locked then, so the lock is taken without waiting. Otherwise one reference goes. |
| `Itable.Table.IputFree` | kernel/fs.c:352-354 | The inode is free on disk, and every other entry still agrees with the disk. |
| `Itable.Table.IputUnlock` | kernel/fs.c:355-357 | The entry is not valid when its lock goes, so the next ilock reads the disk. |
| `Itable.Table.IputEnd` | kernel/fs.c:359-364 | One reference goes, whatever happened since. |
| `Itable.Table.Iput` | kernel/fs.c:338-364 | Without interruption, the inode is freed on disk exactly if this was the last reference to a valid entry without links. |
| `Itable.Table.Run` | kernel/fs.c:200-364 | Every interleaving of these sections, with ialloc and iget in the middle of an iput, keeps the invariant, and the freeing process keeps its lock until it gives it up; each event changes exactly what it should between two moments of the trace, or nothing if it is not possible. |
| `Links.Dirlookup` | kernel/fs.c:575-599 | The first entry with the name, or there is none. |
| `Links.Dirlink` | kernel/fs.c:603-628 | The entry goes to the first empty slot or the end; it fails exactly if the name is there, or there is neither a slot nor room. |
| `Links.IsDirEmpty` | kernel/sysfile.c:402-415 | Exactly the directories with nothing but their first two entries are empty. |
| `Links.Directories.constructor` | mkfs/mkfs.c:115-126 | The root directory alone, with one link, satisfies the invariant. |
| `Links.Directories.LinkBegin` | kernel/sysfile.c:354-369 | A directory is refused; otherwise the count goes up, and accounting is kept exactly if it was below the largest short. |
| `Links.Directories.LinkEnd` | kernel/sysfile.c:371-398 | The entry is made exactly if the directory is there, has room or a slot, and does not have the name; then accounting is kept exactly if the directory has links; otherwise the count is what it was. |
| `Links.Directories.Ialloc` | kernel/fs.c:200-222 | The first free inode, none before it being free, or there is none. |
| `Links.Directories.Create` | kernel/sysfile.c:507-580 | An inode is made exactly if the name is new, an inode is free, there is room for the entry and, for a directory, for its own two; it is the first free one, with its entries, and accounting is kept exactly if the directory has links and, for a directory, room for one more. Otherwise nothing changes, and the result is the inode of the first entry with the name exactly if a file is asked for and it is a file or a device. |
| `Links.Directories.MakeFile` | kernel/sysfile.c:541-579 | The same from the new inode on, for a file; a failure undoes everything. |
| `Links.Directories.MakeDir` | kernel/sysfile.c:541-579 | The same for a directory with its two entries. |
| `Links.Directories.UnlinkFind` | kernel/sysfile.c:454-468 | In any state, the first entry with the name, and the panic "unlink: nlink < 1" exactly if its inode has no link or a negative count. |
| `Links.Directories.Unlink` | kernel/sysfile.c:417-505 | From a state where the counts are right, accounting and the tree are kept in every case and "unlink: nlink < 1" is unreachable; it fails exactly for a missing name, "." and "..", or a directory that is not empty, and otherwise exactly the first entry with the name is emptied. |
| `Links.Directories.FreeInode` | kernel/fs.c:343-360 | Freeing an inode without links keeps accounting and the tree. |
| `Links.EmptyDirLinks` | kernel/sysfile.c:402-415 | The only link to an empty directory is its entry in its parent. |
| `Links.ParentLinks` | kernel/sysfile.c:480-483 | The parent of an empty directory keeps a link when it loses the one from "..". |
| `Links.NewDirAccounted` | kernel/sysfile.c:544-560 | Making a directory keeps the counts exactly if its parent has links and room for one more. |
| `Links.LinkDone` | kernel/sysfile.c:373-378 | An entry keeps the counts exactly if it is made in a directory with links. |
| `Links.BumpLink` | kernel/sysfile.c:367-369 | A link to come is counted right exactly if the count has room. |
| `Links.RemovedDirectory` | kernel/sysfile.c:507-580 | A run after which a count is wrong: a file is made in a removed directory. |
| `Links.TooManyLinks` | kernel/sysfile.c:354-468 | A run of 32766 links to a file, in directories of legal size, after which one more makes the count wrong and unlinking the file panics. |
| `PageTable.MakePte` | kernel/riscv.h:361-365 | Page number and flags of an entry can be read back, and it is valid. |
| `PageTable.PathStep` | kernel/riscv.h:367-370 | The three indices of an address lead from the root to its leaf table. |
| `PageTable.TreeIsFlatMap` | kernel/vm.c:97-115 | The walk of the hardware from the root gives what the flat map says, for every address below MAXVA. |
| `PageTable.AddTable` | kernel/vm.c:107-112 | A new page-table page keeps the tree and changes no translation. |
| `PageTable.SetLeaf` | kernel/vm.c:163-167 | Writing one leaf entry changes the translation of exactly that page. |
| `PageTable.ConfinedEntry` | kernel/vm.c:145-212 | What is confined to one address space leaves every other translation as it was. |
| `Vm.Kmem.constructor` | kernel/kalloc.c:36-82 | Exactly the pages of the range are free, and none is in use. |
| `Vm.Kmem.Kalloc` | kernel/kalloc.c:155-190 | A page that nobody used, or none exactly if the free list is empty. |
| `Vm.Kmem.Kfree` | kernel/kalloc.c:91-150 | The page and nothing else goes back to the free list. |
| `Vm.Kmem.Walk` | kernel/vm.c:97-115 | With alloc it fails exactly if fewer pages are free than tables are missing on the path, and adds only page-table pages of this tree; no translation changes; without alloc nothing changes and it fails exactly if there is no leaf table. |
| `Vm.Kmem.MapPages` | kernel/vm.c:145-173 | Exactly [v, v + n) is mapped to consecutive pages, or exactly the first k when memory runs out, which happens exactly if fewer pages are free than tables are missing; every other address translates as before and no other address space is touched. |
| `Vm.Kmem.UvmCreate` | kernel/vm.c:178-187 | An empty address space in a page that nobody used, or none exactly if no page is free. |
| `Vm.Kmem.UvmUnmap` | kernel/vm.c:192-212 | Exactly the mappings of the range are gone, with their frames back on the free list if asked for; everything else is as before. |
| `Vm.Kmem.UvmAlloc` | kernel/vm.c:216-241 | All new pages, zeroed, each in a frame of its own, exactly if there is memory for them and the missing tables; otherwise every translation, frame and page content is as before. |
| `Vm.Kmem.UvmDealloc` | kernel/vm.c:246-258 | Exactly the pages above the new size are unmapped and freed. |
| `Vm.Kmem.FreeWalk` | kernel/vm.c:262-279 | On a tree without leaves, exactly the tables under this one are freed, and "freewalk: leaf" is unreachable. |
| `PageTable.NothingUnder` | kernel/vm.c:262-279 | An invalid entry has no table below it, so freewalk misses none. |
| `Vm.Kmem.UvmFree` | kernel/vm.c:282-288 | Nothing in memory belongs to the address space any more. |
| `Vm.Kmem.CopyOne` | kernel/vm.c:304-318 | It succeeds exactly if there is a free page for the copy and one for each missing table; then one page is copied with its flags and bytes to a frame of the child, and otherwise nothing is left of the attempt but page-table pages. |
| `Vm.Kmem.UvmCopy` | kernel/vm.c:296-324 | It succeeds exactly if the free pages are enough for the mapped pages and the tables that their paths need; then all of them are copied with flags and bytes to frames of the child, and otherwise none is mapped; the parent translates as before. |
| `Vm.CostBound` | kernel/vm.c:296-324 | Copying or mapping n pages never needs more than 3n pages with the tables. |
| `Fork.ProcPagetable` | kernel/proc.c:176-207 | Trampoline and trapframe are mapped and nothing else, exactly if three pages are free; a failure restores every page, and the second mapping cannot fail. |
| `Fork.ProcFreePagetable` | kernel/proc.c:210-216 | Nothing is left of the address space. |
| `Fork.FreeProc` | kernel/proc.c:155-172 | The trapframe and the address space, as far as there are any, are given back, in that order, and nothing else. |
| `Fork.AllocProc` | kernel/proc.c:109-151 | A trapframe page and an empty address space exactly if four pages are free, or every page as before. |
| `Fork.KFork` | kernel/proc.c:256-303 | It succeeds exactly if the free pages are as many as the trapframe, the tables and the copies take; a failure at any allocation leaves the set of free pages and the use and contents of all others as they were; success gives the child a copy of every page and of the registers with a0 = 0, and leaves everything that was in use as it was. |
| `Fork.ForkCostBound` | kernel/proc.c:256-303 | 4 + 3n free pages are always enough to fork a process of n pages. |
| `Fork.ForkAndFree` | kernel/proc.c:155-303 | A fork followed by the freeing of the child gives back every page that the fork took. |
| `Fork.DisjointFrames` | kernel/proc.c:256-303 | No page of the child is a page of the parent. |
| `SleepLock.RunInv` | kernel/sleeplock.c:21-41 | The invariant of acquiresleep, releasesleep, sleep and wakeup holds in every state of every run of any number of processes. |
| `SleepLock.NoLostWakeup` | kernel/proc.c:539-584 | Whenever the spinlock is free and the sleeplock is not held, no process sleeps on it. |
| `SleepLock.MutualExclusion` | kernel/sleeplock.c:21-41 | At most one process holds the sleeplock, and its pid is the one recorded. |
| `SleepLock.SpinHolderProgresses` | kernel/proc.c:539-584 | The holder of the spinlock can always go on, or waits for a process that can. |
| `SleepLock.ProcessChanges` | kernel/sleeplock.c:21-41 | In every reachable state and for every action: acquiresleep is left only with the lock and releasesleep only without it, a process goes to sleep only while the lock is taken and is woken only by a wakeup of what it sleeps on or by kkill, p->lock and channel change only where the code says, and every step of a call brings it closer to its end or to sleep. |
| `SleepLock.RunnerProgresses` | kernel/sleeplock.c:21-41 | While the spinlock is free, every process that runs can go on, and does. |
| `SleepLock.WhoRuns` | kernel/proc.c:491-584 | Only a process on a CPU executes, yields or sleeps elsewhere; who sleeps elsewhere can be woken from there. |
| `ExitWait.RunInv` | kernel/proc.c:256-412 | The invariant of kfork, kexit, reparent and kwait holds in every state of every run of any number of processes. |
| `ExitWait.EntryChanges` | kernel/proc.c:256-412 | In every reachable state and for every action: the state, the parent, the lock and the channel of a table entry, and the holder of wait_lock, change exactly when there is a cause in the code and to what it says; a process is moved by its own steps, and each brings a call closer to its end or to sleep. |
| `ExitWait.ChildIsStarted` | kernel/proc.c:290-302 | The last step of kfork makes the new entry runnable with the caller as its parent, and touches nobody else. |
| `ExitWait.ChildIsReaped` | kernel/proc.c:379-396 | kwait frees the zombie child that it finds, returns with it, and touches nobody else. |
| `ExitWait.ExitedIsChildless` | kernel/proc.c:306-363 | A zombie has no children and a live parent, which can reap it once the scheduler has switched away from it. |
| `ExitWait.NoDeadlock` | kernel/proc.c:256-412 | Whoever holds wait_lock, or runs in a call while it is free, can go on or waits for the lock of an entry, whose holder can go on. |
| `ExitWait.WhoRuns` | kernel/proc.c:256-412 | Only a process on a CPU makes and executes calls; in user code it may make any, and copying memory or copying the status out may fail. |
| `ExitWait.ParentsAreAlive` | kernel/proc.c:256-318 | Every started process other than init has a parent that is neither free nor a zombie. |
| `ExitWait.NoMissedExit` | kernel/proc.c:323-412 | Whenever wait_lock is free, no process sleeps in kwait with a zombie child. |
| `ExitWait.ReapedIsOffCpu` | kernel/proc.c:367-412 | A process that kwait frees can never run again. |
| `ExitWait.NoChildrenMeansNone` | kernel/proc.c:367-412 | kwait gives up for want of children only when there are none. |
| `Pipe.IndexWraps` | kernel/pipe.c:76-130 | The ring index of a wrapped 32-bit counter is that of the true count. |
| `Pipe.CountersTell` | kernel/pipe.c:76-130 | The wrapped counters tell full and empty apart. |
| `Pipe.Pipe.constructor` | kernel/pipe.c:33-36 | An empty pipe with both ends open. |
| `Pipe.Pipe.PipeWrite` | kernel/pipe.c:76-103 | The bytes put in are the next ones of the buffer, in order, and only while the read end is open; it sleeps exactly if the ring is full, and returns -1 exactly if bytes are left and the read end is closed or the process is killed. |
| `Pipe.Pipe.PipeRead` | kernel/pipe.c:105-130 | The bytes delivered are the next ones put in, as many as asked for, as there are, and as can be copied out; it sleeps exactly if all have been taken, the write end is open and the process is not killed. |
| `Pipe.Pipe.PipeClose` | kernel/pipe.c:58-74 | Exactly this end is closed, no byte is lost, and the memory is given back exactly if both ends are closed then. |
| `Pipe.Interleave` | kernel/pipe.c:76-130 | In every interleaving of any number of writers and readers, the bytes taken out are a prefix of those put in, which are prefixes of the writers' buffers in order. |
| `Malloc.Allocator.constructor` | umalloc.c:89-93 | The ring with the empty block alone. |
| `Malloc.Allocator.FindSlot` | umalloc.c:35-38 | The search stops at the entry after which the block belongs by address. |
| `Malloc.Allocator.LinkUp` | umalloc.c:40-45 | The block is in the list, merged with the next one exactly if they touch. |
| `Malloc.Allocator.LinkDown` | umalloc.c:47-54 | It is merged with the previous one exactly if they touch; the list is fully coalesced again. |
| `Malloc.Allocator.Free` | umalloc.c:24-55 | The block and nothing else becomes free; the list stays circular, sorted and coalesced, and no other live block changes. |
| `Malloc.Allocator.MoreCore` | umalloc.c:57-75 | The new units and no others are added to the free list. |
| `Malloc.Allocator.Allocate` | umalloc.c:97-110 | The block found, or its tail, becomes live with exactly the requested units. |
| `Malloc.Allocator.Malloc` | umalloc.c:77-117 | It fails exactly for a size of 0, or if no free block is large enough and sbrk fails; otherwise it returns a block of enough units that was part of no live block, live blocks are unchanged, and live plus free units grow by what sbrk gave. |
| `Malloc.Allocator.Search` | umalloc.c:95-117 | The search ends: with a block of exactly the requested units, or without one exactly if no free block is large enough and sbrk fails. |
| `Malloc.Disjoint` | umalloc.c:24-117 | Two blocks never overlap. |
| `Shell.GetToken` | sh.c:272-315 | The first token of the rest of the text, its span and the cursor after it; the cursor moves unless the text is at its end. |
| `Shell.Peek` | sh.c:317-327 | The cursor moves over space only, and the next character is looked up. |
| `Shell.ParseRedirs` | sh.c:381-404 | The redirections that the grammar has at the front, or an error exactly where it has none. |
| `Shell.ParseArgs` | sh.c:432-452 | The words and redirections of a command, in any order, according to the grammar, at most 9 words. |
| `Shell.ParseExec` | sh.c:422-453 | A block or a command according to the grammar. |
| `Shell.ParseBlock` | sh.c:406-420 | A parenthesised line with its redirections according to the grammar. |
| `Shell.ParsePipe` | sh.c:368-379 | A pipeline according to the grammar. |
| `Shell.ParseLine` | sh.c:351-366 | A line according to the grammar; the recursion ends because less text remains. |
| `Shell.ParseCmd` | sh.c:334-349 | The command that the tokens of the whole text stand for, or an error exactly if there is none; its words are maximal runs of word characters. |
| `Shell.ItemsParse` | sh.c:432-452 | Words and redirections of a command as typed, in any order: all words in order, under all redirections in order. |
| `Shell.LineParse` | sh.c:351-453 | A line as typed parses to what it means: "a | b | c" and "a ; b" group to the right, "&" applies to the pipeline before it, parentheses group. |
| `Shell.LineSound` | sh.c:351-453 | The converse: whatever parses is a line as typed, with the tree that it means. |
| `Shell.CommandIff` | sh.c:334-349 | A text is a command exactly if its tokens are those of some line as typed. |
| `Shell.CommandMeans` | sh.c:334-349 | And the command is what that line means. |
| `Shell.LexSpaced` | sh.c:272-315 | Tokens can be laid out with any space between them, or none where they stay apart, and are found again. |
| `Shell.TypedParses` | sh.c:334-453 | Any line as typed, with any such layout, is parsed to what it means. |
| `Shell.RoundTrip` | sh.c:334-453 | parsecmd(print(t)) rebuilds t for every tree whose commands have at most 9 words. |
| `Shell.NulTerminate` | sh.c:456-500 | Exactly the bytes after the tokens become zero. |
| `Shell.SeenIs` | sh.c:456-500 | No byte of a token is overwritten: every word read as a C string is the token. |
| `Shell.ParseAndTerminate` | sh.c:334-349 | The command that is run, read from the terminated buffer, is the one that was parsed. |
| `Regexp.MatchHere` | grep.c:13-25 | It matches exactly if some prefix of the text is in the language of the expression. |
| `Regexp.MatchStar` | grep.c:27-35 | It matches exactly if some number of fitting characters is followed by a match. |
| `Regexp.Match` | grep.c:37-47 | It matches exactly if some substring is in the language, at the start for a leading "^". |
| `Rand.DoRand` | grind.c:16-32 | One step is multiplication by 16807 modulo 2^31 - 1, and no 64-bit value overflows. |
| `Rand.Schrage` | grind.c:24-27 | The folded difference is the product modulo 2^31 - 1. |
| `Rand.Calls` | grind.c:34-40 | Repeated calls step the context as the closed form says. |
| `Rand.RunIsPower` | grind.c:16-40 | After k calls the value plus one is 16807^k times that of the seed, modulo 2^31 - 1, and in range. |
| `Rand.RunIsReversible` | grind.c:16-40 | The seed can be computed back from the value after k calls. |
| `Rand.RunsNeverMerge` | grind.c:16-40 | Two seeds that differ never give the same value after the same number of calls. |

## Left out

- Log.Log.LogWrite: requires that the operation stays within MAXOPBLOCKS distinct blocks, which is what the source asks of its callers.
- Malloc.Allocator.Malloc: requires that the request fits in an `int` of bytes and that `sbrk` returns fresh memory above the allocator's own header, as the source assumes.
- Fs.Fs.Writei: a failed copy from user memory, which leaves a changed and unlogged buffer behind, is not modelled; the same holds for `readi`.
- Fork.KFork: open files, names, pids and the scan of the process table are not modelled, only the memory of the process.
- Shell.ParseArgs: the source fills in the words of a command under redirections that already point to it; the model builds the command when its words are known.
- LogCache.LoggedCache.Commit: the exact condition is for a cache that nobody else uses; with readers, each section says when it panics.
- LogCache.LoggedCache.WriteLog: over the cache it is for fewer logged blocks than buffers; the other case is in `LogCache.LoggedCache.Commit`. The same holds for `InstallTrans`.
- `recover_from_log` over the cache; `Log.Log.Recover` has it over the view, and at boot nothing else uses the cache.
- Fs.Fs.FileWrite: the source drops the inode lock between chunks; no other process writes to the file there in the model.
- Itable.Table.Iput: the freeing of the inode's blocks is `Fs.Fs.FreeInode`; the table here holds the rest of an inode as a value.
- The statistics counters of `kernel/kalloc.c`.
- The kernel's own page table, `copyin`, `copyout` and the page-fault handler.
- Path names: `skipelem` and `namex`; a directory operation gets its directory.
- Liveness of pipes when a writer is killed.
- Interleavings inside one file-system method; methods run under the lock of their inode.
- Device drivers, traps, the scheduler's context switch, spinlocks with interrupts and fences.
- `kernel/exec.c`, `mkfs`, the line buffer of `grep`, and the other user programs.
