# moOS: verified models of its hard parts

moOS is a 32 bit operating system in C. This project models the parts of it that carry invariants
without touching hardware, and proves them with Dafny 4.11. `dafny verify dfyconfig.toml` checks
all of it.

- **FAT16 driver** (`FatDisk` to `FatRun`): sectors, the two write-through caches, cluster chains,
  file contents, 8.3 and long names, directories, and the operations on them. A volume is *sound*
  when it passes what fsck checks (every cluster in use in exactly one chain, chains disjoint, ended
  and as long as their file needs, the directories a tree with the right `.` and `..`, nothing after an
  end marker) and when the names of every directory are distinct and without orphan parts.
  `FatRun.Run` shows that every run, with any number of files open, keeps the volume sound and the open
  files right, and that each command changes what it should and nothing else. `FatSectors`, `FatEntryBytes`,
  `FatNameBytes` and `FatSample` say where every byte of it is on the disk, so that other drivers read the same.
- **PNG decoding** (`PngBits`, `PngHuffman`, `PngInflate`, `PngStream`, `PngCodes`, `PngSamples`,
  `PngUnfilter`): inflate against the expansion of RFC 1951 (section 3.2), its tables number by number, and
  unfiltering as the inverse of RFC 2083 (section 6).
- **Task kernel** (`KernelState` to `KernelRun`, `KernelGap`): scheduler, mutexes with priority inheritance,
  kill, exit and wait as a state machine. The kernel is not preempted, so a step is a system call up
  to where it blocks, or its rest after it was woken; steps of all tasks interleave in any order.
- **Pipes and handles** (`KernelFiles`, `KernelPipes`): descriptors, reference counts and pipe ends,
  in the same style: what a call does before it waits, and after.
- **User heap** (`ByteMemory`, `UserBlocks`, `UserHeap`, `UserMalloc`, `UserProgram`): the block
  list of `malloc` kept in the memory it hands out.
- **Kernel heap and address spaces** (`KernelHeap`, `PageTables`, `AddressSpace`, `PageWalk`, `ElfFile`,
  `ElfLoader`, `TaskArgs`, `TaskStart`, `ProgramBytes`): the block table, page tables, the ELF loader that
  fills a user space, the arguments on its stack and the growth of its heap, as the processor finds them.

Objects the code updates in place are classes with the same fields and methods; each method is tied
to functions and predicates on values (a `View` of the volume, a `State` of the kernel, a list of
blocks), about which the lemmas speak. Memory outside the part in question, clocks, and whether
there is room are parameters.

What turned out not to hold of the code as it stands, with the exact condition:

- Setting the priority of a task that waits for an inherit mutex does not reach the owner
  (`KernelGap.SetPriorityGap`). Inheritance holds after the call if and only if the owner already
  has that priority (`KernelTasks.SetPriorityExactly`), and it ends there in a run
  (`KernelRun.RunInherits`); ownership, scheduling and preemption go on (`KernelRun.Run`).
- Killing a waiter can leave its owner with a priority nobody asks for (`KernelGap.KillGap`). The
  priorities of tasks not killed stay exact if and only if no owner has its own from that waiter alone
  (`KernelTasks.KilledExactly`, `KernelRun.RunExact`).
- A file can be removed, cut or opened for a second write while it is open. Every run keeps the volume sound
  up to the first such command (`FatRun.Run`); from there on the descriptor that was open is wrong
  (`FatRun.RemovedUnderneath`, `FatRun.CutUnderneath`, `FatRun.WrittenUnderneath`).
- `malloc` in user programs rounds with 32 bits and passes a signed increment on. A program gets null or
  enough memory if and only if the size is 0, at most 0x7FFFFFE8, or refused for the heap as it is
  (`UserMalloc.Heap.Malloc`, `UserMalloc.WrappedSizes`); 0xFFFFFFF0 on a fresh heap is none of these
  (`UserMalloc.FreshHeapWraps`).
- On volumes with cluster numbers from 0xFFF0 on, such a cluster is handed out, and then neither found nor
  freed (`FatReserved.LoseCluster`); exactly the chains without one are found and freed as a whole
  (`FatReserved.FreedExactly`, `FatReserved.ReachedExactly`).

## Model

| member | source | states |
|---|---|---|
| FatDisk.DiskStream.Read | src/drivers/disk/disk_stream.c:21-49 | Reading sector by sector returns the next bytes of the disk taken as one flat array, across sector borders |
| FatDisk.DiskStream.Write | src/drivers/disk/disk_stream.c:51-88 | Writing sector by sector splices the bytes into the flat array; sectors written in part keep their other bytes |
| FatLayout.WriteFat | src/file_system/fat/fat16.c:1129-1153 | Two bytes written at the place of an entry change that entry of that FAT copy and nothing else: no other copy, no root entry, no cluster |
| FatLayout.WriteRoot | src/file_system/fat/fat16.c:1300-1326 | 32 bytes written at the place of a root entry change that entry and neither a FAT copy nor a data cluster |
| FatLayout.WriteCluster | src/file_system/fat/fat16.c:556-562 | Bytes written inside a data cluster change those bytes of that cluster and neither a FAT copy nor the root directory |
| FatSectors.CopiesTile | src/file_system/fat/fat16.c:564-1153 | The first copy of the FAT begins behind the reserved sectors and each one where the one before ends, with two bytes an entry |
| FatSectors.DataTiles | src/file_system/fat/fat16.c:253-562 | The root directory begins where the last copy ends, with 32 bytes an entry; cluster 2 at the first border of a sector behind it, and each cluster where the one before ends |
| FatSectors.LastCluster | src/file_system/fat/fat16.c:1117-1126 | The last cluster ends on the volume, and there is no room for one more |
| FatVolume.Volume.Mount | src/file_system/fat/fat16.c:253-394 | After mounting, the cached FAT is every copy on disk, the cached root directory is the root region, and `total` is the index of the first end marker |
| FatVolume.Volume.SetFatEntry | src/file_system/fat/fat16.c:1129-1153 | Cache and all disk copies stay equal: the volume seen is the old one with that one entry replaced |
| FatVolume.Volume.WriteDirEntry | src/file_system/fat/fat16.c:1300-1326 | Cache and disk stay equal: exactly one directory entry is replaced, and `total` grows only when the end marker is overwritten |
| FatVolume.SetEntryGet | src/file_system/fat/fat16.c:1300-1326 | A directory entry written anywhere, root or subdirectory, is read back, and every other entry is as before |
| FatSectors.EntriesTile | src/file_system/fat/fat16.c:1279-1297 | The entries of a cluster are 32 bytes each, the first one where the cluster begins, and fill it |
| FatSectors.FatBytes | src/file_system/fat/fat16.c:323-1153 | Entry c in the cache of the driver is the two bytes, low one first, at byte 2 c of each copy on the disk |
| FatSectors.RootBytes | src/file_system/fat/fat16.c:1300-1326 | Byte j of root entry i in the cache is the byte at its place on the disk, counted from the fields of the boot sector |
| FatSectors.DataBytes | src/file_system/fat/fat16.c:556-562 | Byte b of a cluster is byte b of its sectors on the disk |
| FatSectors.ChainBytes | src/file_system/fat/fat16.c:11-1153 | In the bytes of every copy of the FAT the numbers of a chain lead from cluster to cluster, up to a number from 0xFFF8 on |
| FatSectors.UsedBytes | src/file_system/fat/fat16.c:11-1205 | On a consistent volume a cluster is of some file or directory exactly if its two bytes in each FAT copy are neither 0 nor 0xFFF7 |
| FatEntryBytes.Fields | src/file_system/fat/fat16.c:45-107 | Cluster, size and kind of an item are read from bytes 26, 27, 20, 21, 28 to 31 and from bits 3 and 4 of byte 11, low bytes first; a part of a long name has 15 there |
| FatEntryBytes.LiveEntry | src/file_system/fat/fat16.c:20-53 | A file or directory is an entry whose first byte is not 0, 0xE5 or a dot and that is neither a name part nor the label |
| FatEntryBytes.NewFileBytes | src/file_system/fat/fat16.c:1364-1697 | The entry of a new file has attribute 0x20, the time it is made at bytes 14, 16, 18, 22 and 24, and zeros elsewhere |
| FatEntryBytes.DirectoryBytes | src/file_system/fat/fat16.c:1877-1938 | The entries `.` and `..` are one and two dots padded with spaces, attribute 0x10, no size, and a cluster at bytes 26 and 27 |
| FatEntryBytes.DeletedBytes | src/file_system/fat/fat16.c:1827-1875 | Removing an item makes the first byte of its entry and of each part of its name 0xE5, and changes no other byte |
| FatChains.AllocCluster | src/file_system/fat/fat16.c:1157-1205 | Returns the first free cluster in circular order from the last one, zeroed and as a chain of one; it fails exactly if no cluster is free, and changes nothing then |
| FatChains.FreeChain | src/file_system/fat/fat16.c:1207-1220 | Every cluster of the chain in front of the first one with a reserved number becomes free and no other entry changes; that is the whole chain on a volume without such clusters |
| FatChains.ClusterForOffset | src/file_system/fat/fat16.c:603-655 | The cluster that holds a byte of a file is the chain element with the index of that byte, an error past the end of the chain or if an element on the way there has a reserved number |
| FatChains.ClusterAt | src/file_system/fat/fat16.c:1224-1269 | Returns element `index` of the chain, growing it by zeroed clusters that were free if allowed; on failure the clusters already added stay in the chain and none is free |
| FatReserved.FreedExactly | src/file_system/fat/fat16.c:1207-1220 | All clusters of a chain are freed if and only if none of them has a number from 0xFFF0 on; otherwise exactly those in front of the first one that has |
| FatReserved.ReachedExactly | src/file_system/fat/fat16.c:603-655 | All clusters of a chain are found from its first one if and only if none behind it has a number from 0xFFF0 on |
| FatReserved.HighVolume | src/file_system/fat/fat16.c:1117-1220 | There is a volume on which the only free cluster is number 0xFFF0: a chain that grows by it is not freed as a whole |
| FatReserved.LoseCluster | src/file_system/fat/fat16.c:603-1220 | On that volume the cluster is allocated for a file, not found when the file is read, and still in use when the file is removed |
| FatContent.ChainFitsIsCeil | src/file_system/fat/fat16.c:1744-1802 | The length a chain must have for a file is its size in clusters, rounded up, and no other |
| FatContent.FlattenSlice | src/file_system/fat/fat16.c:658-697 | Byte `offset` of the k-th cluster is byte k times the cluster size plus `offset` of the chain |
| FatContent.FlattenWrite | src/file_system/fat/fat16.c:1744-1802 | A write into the k-th cluster of a chain without repetitions splices those bytes into the bytes of the chain |
| FatFiles.ReadChain | src/file_system/fat/fat16.c:658-697 | Hopping from cluster to cluster yields exactly the slice asked for, and fails if it ends past the chain |
| FatFiles.Read | src/file_system/fat/fat16.c:988-1016 | Returns as many whole members as are left, the bytes of the file at the position, moves the position by them and changes nothing on the volume |
| FatFiles.Seek | src/file_system/fat/fat16.c:1018-1055 | The position becomes the target if that is inside the file, end included, and stays with an error otherwise |
| FatFiles.Write | src/file_system/fat/fat16.c:1744-1802 | Refused on a file open for reading; otherwise what was written is spliced in at the position, size, chain and entry follow, and a full disk keeps the part that fitted |
| FatFsck.NoCrossLinks | src/file_system/fat/fat16.c:1129-1269 | No cluster is in the chains of two files or directories, or twice in one |
| FatFsck.NoLostClusters | src/file_system/fat/fat16.c:1129-1269 | Every cluster that is neither free nor bad is in the chain of exactly one live entry of a directory |
| FatFsck.KeepWritten | src/file_system/fat/fat16.c:1744-1802 | A write to a listed file keeps every cluster accounted for: its chain is the old one grown by free clusters, its size fits, all other chains are the same |
| FatFsck.KeepUnlisted | src/file_system/fat/fat16.c:1827-1875 | Taking an entry off its directory leaves exactly its chain pending; all other clusters stay accounted for |
| FatFsck.KeepGrownDirectory | src/file_system/fat/fat16.c:1331-1361 | A directory that grows by zeroed clusters lists the same entries, and every cluster stays accounted for |
| FatDirs.ReachesRoot | src/file_system/fat/fat16.c:1877-1938 | Going up from any listed file or directory ends at the root: there are no directory cycles and no orphans |
| FatDirs.SetListed | src/file_system/fat/fat16.c:1600-1665 | Writing the entry of a new file or directory into a free place keeps the volume consistent; its directory lists what it did, with that entry in its place |
| FatDirs.Unlist | src/file_system/fat/fat16.c:1827-1875 | Freeing the chain and deleting the entry of a file or an empty directory keeps the volume consistent |
| FatDirs.Empty | src/file_system/fat/fat16.c:1667-1742 | Cutting a file to nothing frees its chain and keeps the volume consistent |
| FatNames.ShortNameOf | src/file_system/fat/fat16.c:1377-1424 | The loops compute the padded upper case name and case bits, or none if the name does not fit 8.3 |
| FatNames.ShortRoundTrip | src/file_system/fat/fat16.c:434-1424 | A name that fits 8.3 is read back from its entry exactly, case included, and its stored form is the name in upper case |
| FatLongNames.CountParts | src/file_system/fat/fat16.c:475-497 | Scanning back counts exactly the run of long name parts with descending numbers and the right checksum before the entry |
| FatLongNames.GetItemName | src/file_system/fat/fat16.c:501-528 | The name read is that of the long name parts if there are any, else the 8.3 name with its case bits |
| FatLongNames.FindIndex | src/file_system/fat/fat16.c:838-864 | Returns the first live item whose long or 8.3 name is the one asked for up to case, or none if there is none |
| FatLongNames.MakeAlias | src/file_system/fat/fat16.c:1447-1516 | Returns the first alias no 8.3 name in the directory has, or none if all 999 are taken |
| FatLongNames.PartRead | src/file_system/fat/fat16.c:463-1665 | The 13 characters written into a part of a long name are those read back from it |
| FatNaming.CreateNames | src/file_system/fat/fat16.c:1600-1665 | The new item is found under its name and read back exactly, case included; all other items keep their names; display names up to case and 8.3 names each stay distinct; no orphan part arises |
| FatNaming.RemoveNames | src/file_system/fat/fat16.c:1827-1875 | After a removal neither the entry nor its long name parts are in use, all other names are the same, and no part is without its entry |
| FatOps.LoadDirectory | src/file_system/fat/fat16.c:740-805 | The items loaded are the entries of the chain up to the first end marker |
| FatOps.DirEntryPos | src/file_system/fat/fat16.c:1279-1297 | The position computed is that of the entry on the disk, in the root region or in the cluster of the chain that holds it |
| FatOps.FindFreeSlot | src/file_system/fat/fat16.c:1331-1361 | Returns deleted entries in a row or the end of the directory with room behind it, end marker included, growing a subdirectory if it must; it fails only if there is no such place and no cluster |
| FatCreate.MakeEntries | src/file_system/fat/fat16.c:1600-1665 | The entries of a new item are its 8.3 entry, or all parts of its long name and an alias; its bytes are those `FatNameBytes.LongBytes`, `ShortBytes` and `AliasBytes` give; errors exactly for invalid names and when all aliases are taken |
| FatNameBytes.LongBytes | src/file_system/fat/fat16.c:452-1665 | In the entries of a new long name, each part has its number, 0x40 more in the last one, attribute 15, 13 characters of two bytes at their places with 0 and 0xFFFF behind the name, and at byte 13 the end of the chain that starts with 0 and is rotated right by a bit before each byte of the 8.3 name is added |
| FatNameBytes.OneChain | src/file_system/fat/fat16.c:452-461 | There is one such chain for an 8.3 name |
| FatNameBytes.ShortBytes | src/file_system/fat/fat16.c:1377-1424 | In the entry of a new 8.3 name, base and extension are in upper case, padded with spaces to 8 and 3 bytes; bits 3 and 4 of byte 12 say whether they had lower case letters |
| FatNameBytes.AliasBytes | src/file_system/fat/fat16.c:1444-1516 | Alias n of a name is what its base keeps, cut to leave room, a tilde, the decimal digits of n and spaces, and three characters of what its extension keeps |
| FatNameBytes.ShortCodes | src/file_system/fat/fat16.c:1377-1424 | The characters of 8.3 names by their codes |
| FatNameBytes.LongCodes | src/file_system/fat/fat16.c:1519-1536 | The long names that can be given: 1 to 63 printable characters, none of nine forbidden ones, no dot or space at the end |
| FatNameBytes.LongRead | src/file_system/fat/fat16.c:452-528 | Whoever wrote the parts: if they are numbered back from the 8.3 entry and have the end of its chain at byte 13, the name read is their characters, those outside ASCII as `?`, up to 108 |
| FatSample.MoosFound | src/file_system/fat/fat16.c:452-864 | A directory of three entries of 32 bytes as another driver writes them, parts with checksum 0x65 and LONGNO~1TXT, has `long notes about moos.txt`, in any case, at index 2 |
| FatCreate.CreateItem | src/file_system/fat/fat16.c:1600-1665 | On success the entries are in free places and the item is listed with the pending chain; on failure the directory at most has more room; either way the volume stays consistent and all else is kept |
| FatSound.FoundIsLive | src/file_system/fat/fat16.c:838-864 | A path part never finds `.`, `..` or a part of a name: what is found is a file or directory of the volume |
| FatSound.SoundBy | src/file_system/fat/fat16.c:1600-1938 | An operation that keeps the volume consistent and the names and first two entries of its own directory proper keeps the whole volume sound |
| FatSound.HomesBy | src/file_system/fat/fat16.c:1600-1938 | Such an operation also keeps `.` and `..` of all directories right: the first two entries, naming the first cluster of the directory and of the one it is in |
| FatSound.FormattedIsSound | makefile:211-212 | A formatted volume, with no cluster in use and nothing but a label in its root directory, is sound |
| FatOthers.ContentsKept | src/file_system/fat/fat16.c:1744-1875 | What is kept by an operation is still the same kind of thing, and a file has the same bytes |
| FatOpen.OpenForWrite | src/file_system/fat/fat16.c:1667-1742 | Refuses directories; truncates or leaves an existing file with its dates, creates a missing one; the descriptor describes the listed file, all other files and directories are kept and the volume stays sound |
| FatOpen.CreatedSound | src/file_system/fat/fat16.c:1600-1665 | A created item keeps the volume sound and is found under its name afterwards |
| FatWriting.WriteFile | src/file_system/fat/fat16.c:1744-1802 | On a sound volume the entry is dated and the contents of the file become the old ones overwritten at the position, and every other file and directory keeps entry, chain and bytes, also when the disk fills up |
| FatRemove.DirectoryIsEmpty | src/file_system/fat/fat16.c:1804-1825 | True exactly if the directory has no entry but `.`, `..`, deleted ones and name parts |
| FatRemove.Remove | src/file_system/fat/fat16.c:1827-1875 | Not found, directory not empty, or success exactly when those hold; on success the entry, its long name and its clusters are gone and nothing else changes; the volume stays sound |
| FatRemove.NotInItself | src/file_system/fat/fat16.c:1827-1875 | No entry of a directory is that of the directory itself |
| FatMkdir.Mkdir | src/file_system/fat/fat16.c:1877-1938 | The new directory is listed and found under its name in a cluster that was free, with `.` naming that cluster and `..` the parent, and end markers in the rest; on failure the cluster is free again |
| FatPaths.GetParent | src/file_system/fat/fat16.c:878-1586 | Going down a normalised path ends at the directory that lists the last part, or stops exactly where a part is missing or is a file, with the error for that |
| FatStdio.FsInit | src/file_system/file.c:57-67 | On a sound volume with nothing open, a run can start |
| FatStdio.Fwrite | src/libc/stdio/stdio.c:333-347 | Through a writing descriptor the bytes overwrite the file at its position, which moves behind them, and the copy of the entry is the entry again, dated now; a full disk keeps what fitted; refused for readers, directories and what is not open; nothing to write is no error |
| FatStdio.Fread | src/libc/stdio/stdio.c:349-370 | Returns the bytes the file holds now at the position, as many whole members as are left of the size the descriptor knows; refused for directories, what is not open and members of no bytes |
| FatStdio.Fseek | src/libc/stdio/stdio.c:248-262 | The position of that descriptor becomes the target if it is inside the file, and stays with an error otherwise; refused for directories and what is not open |
| FatStdio.Fclose | src/libc/stdio/stdio.c:228-246 | Exactly that descriptor is free again; the volume and all others stay |
| FatStdio.OpenStays | src/file_system/fat/fat16.c:1720-1735 | What an operation leaves alone it leaves alone for every open file: slot, entry, chain and bytes are the same, so that its copy of the entry stays right |
| FatStdio.FilesWritten | src/file_system/fat/fat16.c:1720-1802 | After a write through one descriptor all others are still right: those of other files see no change, readers of the same file have an older copy of a file that has at most grown |
| FatFopen.FopenIn | src/libc/stdio/stdio.c:132-203 | The lowest free descriptor stands for the file or directory found, or for a new file; without one, or on any error, the result is 0, and what was created or cut stays so; an open that clashes is told from all others |
| FatFopen.MayOpenExactly | src/file_system/fat/fat16.c:1720-1735 | The opens that clash: for writing or appending, of a file that has a writer; for writing, of a file with clusters that is open at all; and no others |
| FatFopen.OpeningKeeps | src/file_system/fat/fat16.c:913-1742 | An open that does not clash keeps every open file as it is, and the new descriptor describes its file |
| FatFopen.SlotPosOnce | src/file_system/fat/fat16.c:1279-1297 | Two entries at the same place of the disk are the same entry |
| FatRun.Execute | src/file_system/fat/fat16.c:1548-1938 | Each command, with any number of files open, does what it says: nothing if its path leads nowhere, and otherwise what opening, removing or making a directory promises; what writing, reading, seeking or closing promises; every open file it does not write to keeps entry, chain and bytes; or it clashes, and is the one kind of command that is not done |
| FatRun.Run | src/file_system/fat/fat16.c:914-1938 | Over every run of opening, writing, reading, seeking, closing, removing and making directories, with any number of files open in between and each at its own time, each command does what it says, the volume is sound after it and each open file is described by its descriptor, up to the first command that would cut or remove a file that is open or open one for a second write |
| FatRun.BytesOver | src/file_system/fat/fat16.c:1744-1802 | The bytes of a file that stays open over a run are those it had, overwritten by what was written through its writer in that order, whatever else was done on the volume |
| FatRun.RemovedUnderneath | src/file_system/fat/fat16.c:1827-1875 | A file that is removed while it is open leaves a descriptor whose clusters are free |
| FatRun.CutUnderneath | src/file_system/fat/fat16.c:1667-1742 | A file that is cut while it is open for writing leaves a descriptor with a wrong copy of the entry |
| FatRun.WrittenUnderneath | src/file_system/fat/fat16.c:1744-1802 | A file that grows through one of two writers leaves the other one with a wrong copy of the entry |
| PngBits.Bits.GetBits | src/user/galaga/png.c:19-32 | The value of the next bits, first bit least significant, or -1 at the end of the data |
| PngHuffman.PrefixFree | src/user/galaga/png.c:42-64 | At most one symbol has its code word at a place of the stream |
| PngHuffman.NotOversubscribedIff | src/user/galaga/png.c:42-64 | The code words of each length fit in that many bits exactly if the Kraft sum is at most one |
| PngHuffman.OffsetBound | src/user/galaga/png.c:42-64 | The symbols fill the table in code order without a gap |
| PngHuffman.Huffman.Build | src/user/galaga/png.c:42-64 | The tables describe the canonical code of the lengths: counts per length, and each symbol at its place in code order |
| PngHuffman.Huffman.Decode | src/user/galaga/png.c:66-88 | Returns the symbol whose code word comes next and consumes exactly its length; -1 only if no code word comes next |
| PngInflate.CopyBytes | src/user/galaga/png.c:106-257 | A copy byte by byte is the repetition of the last bytes, also when source and target overlap |
| PngInflate.LengthCodesTile | src/user/galaga/png.c:90-104 | Every length from 3 to 258 has exactly one length code below 28 with extra bits for it |
| PngInflate.DistanceCodesTile | src/user/galaga/png.c:90-104 | Every distance from 1 to 32768 has exactly one distance code with extra bits for it |
| PngCodes.LengthTable | src/user/galaga/png.c:90-104 | Base and extra bits of each length code by a formula, 258 with none for the last one |
| PngCodes.DistanceTable | src/user/galaga/png.c:90-104 | Base and extra bits of each distance code by a formula |
| PngCodes.MetaLengthAt | src/user/galaga/png.c:148-166 | The length of code length symbol s is the three bit field at its place, given as a number for each s, or 0 if the header has not so many |
| PngCodes.FixedCode | src/user/galaga/png.c:138-147 | The code words of the fixed code by symbol: 0x30 + s, 0x190 + s - 144, s - 256 and 0xC0 + s - 280, in 8, 9, 7 and 8 bits |
| PngCodes.FixedDistance | src/user/galaga/png.c:138-147 | The fixed code of distance s is s in five bits |
| PngInflate.InflateStored | src/user/galaga/png.c:106-257 | A stored block starts at the next byte and appends its bytes, or does not fit |
| PngInflate.ReadLengths | src/user/galaga/png.c:106-257 | The run length coded code lengths of a dynamic block are expanded as section 3.2.7 of RFC 1951 says, consuming exactly their bits |
| PngInflate.InflateTokens | src/user/galaga/png.c:106-257 | The literals and copies of a block are appended, up to its end code, or do not fit |
| PngInflate.Inflate | src/user/galaga/png.c:106-257 | For every well-formed stream of stored, fixed and dynamic blocks whose content fits, returns its length and bytes; -1 exactly if it does not fit |
| PngStream.OneStream | src/user/galaga/png.c:106-257 | Two lists of blocks that describe the same stream are the same: a stream has one content |
| PngStream.StoredStream | src/user/galaga/png.c:106-257 | For every byte string there is a well-formed stream that holds it, of as many stored blocks as it takes |
| PngSamples.MoosStream | src/user/galaga/png.c:106-257 | A stream of 14 bytes with a fixed block, literals and a copy, and its content |
| PngSamples.AaaaStream | src/user/galaga/png.c:106-257 | A stream of 20 bytes with a dynamic block, its own codes and a copy, and its content |
| PngUnfilter.PaethIsNearest | src/user/galaga/png.c:265-275 | The predictor is the neighbour nearest to left plus above minus upper left, ties going to left, then above |
| PngUnfilter.FilterInjective | src/user/galaga/png.c:279-316 | Two images with the same filtered rows are the same, for every choice of filters: filtering loses nothing |
| PngUnfilter.UnfilterRow | src/user/galaga/png.c:279-316 | Each byte of the row as it was is the new one minus its prediction from the new bytes; nothing else changes |
| PngUnfilter.Unfilter | src/user/galaga/png.c:279-316 | Whatever image was filtered into the buffer, row by row with its filter byte, is what is in it now, byte by byte, and each byte is undone as the type of its row says; -1 exactly if some filter is not 0 to 4 |
| PngUnfilter.FilterUndone | src/user/galaga/png.c:279-316 | Type 0 leaves a byte, 1 adds the one bpp to the left, 2 the one above, 3 half their sum rounded down, 4 the neighbour nearest to left plus above minus corner, modulo 256 |
| PngUnfilter.SubRow | src/user/galaga/png.c:279-316 | The row 1, 5, 3 becomes 5, 8 |
| KernelSched.RunsBeforeIsAhead | src/kernel/task/sched.c:41-69 | With all deadlines in one window of half the counter range, the wrapping comparison is an order of numbers |
| KernelSched.PickNext | src/kernel/task/sched.c:71-102 | The pick is the first of the best runnable tasks behind the running one, idle only if nothing is runnable; under the other policies nobody should run sooner, and of those that need not either it is the first |
| KernelSched.EdfPick | src/kernel/task/sched.c:41-102 | Under earliest deadline first: a task of priority 30 or more if there is one, the highest; else one with a period if there is one, with the nearest deadline; else one of the highest priority |
| KernelSched.PreemptingIsSooner | src/kernel/task/sched.c:52-151 | A task that is woken asks for a switch exactly if nothing runs or, but for round robin, it should run sooner: by priority from 30 on, else by deadline if it has a period, before those without |
| KernelSched.RoundRobinProgress | src/kernel/task/sched.c:80-102 | Under round robin every switch brings each waiting task strictly closer to its turn |
| KernelSched.BoundedWaiting | src/kernel/task/sched.c:80-139 | A task that stays ready is picked within 15 calls |
| KernelSched.ScheduledKeeps | src/kernel/task/sched.c:104-139 | After a switch exactly one task runs, and under the real time policy no task that could run and was not killed has a higher priority |
| KernelSched.Schedule | src/kernel/task/sched.c:104-139 | Switches to the pick, gives it a new slice, reaps detached zombies and clears the request; the kernel invariant holds |
| KernelSched.Tick | src/kernel/task/sched.c:153-172 | Wakes exactly the sleepers whose time has come, takes a tick off the slice, and asks for a switch exactly if the slice is used up or a woken task preempts |
| KernelSched.TickAsks | src/kernel/task/sched.c:52-172 | When a tick asks for a switch, in the fields of tasks: at the end of the slice, or for a sleeper whose tick has come and that should run sooner |
| KernelSched.FiveTicks | src/kernel/task/sched.c:104-172 | A task that was switched to is asked to make way at its fifth tick, and before that only for one that is woken |
| KernelMutex.UpdatePriority | src/kernel/task/mutex.c:89-111 | The priority becomes the maximum of the own one and those of the waiters of inherit mutexes owned; killed tasks keep theirs |
| KernelMutex.Boost | src/kernel/task/mutex.c:72-87 | Every owner along the chain that is below the caller gets its priority, up to the first that is not; no other task changes |
| KernelMutex.BoostUnlimited | src/kernel/task/mutex.c:72-87 | The depth limit of the walk never matters: a larger one gives the same priorities |
| KernelMutex.WaitingKeeps | src/kernel/task/mutex.c:72-147 | A task that starts to wait after the boost leaves every owner at least as high as all that wait for it, and exactly at the maximum if it was before |
| KernelMutex.HandOver | src/kernel/task/mutex.c:150-170 | The first waiter of the highest priority owns the mutex and is ready; the old owner has the priority that is due |
| KernelMutex.ExactIsDue | src/kernel/task/mutex.c:89-111 | Where priorities are exact, that of each task not killed is the maximum of its own one and those of the waiters |
| KernelState.AtBoot | src/kernel/task/task.c:168-195 | The idle thread is ready in slot 0, the init thread runs in slot 1 with priority 30, and no other slot is in use; nothing is open and nobody waits |
| KernelState.OwnersServe | src/kernel/task/mutex.c:20-226 | An owner is alive and has the mutex open; a mutex without owner has no waiter; one with no references has no owner |
| KernelState.ChainInherits | src/kernel/task/mutex.c:72-87 | Along every chain of owners that wait for each other no one runs below the first waiter |
| KernelLocks.Open | src/kernel/task/mutex.c:32-68 | Opens the mutex of that name, or a new one in the first free slot; `refs` counts the task once; live names stay unique |
| KernelLocks.Lock | src/kernel/task/mutex.c:113-147 | Refused, owned at once, given up by a killed task, or waiting with its priority passed on, each exactly under its condition |
| KernelLocks.ResumeLock | src/kernel/task/mutex.c:113-147 | A woken waiter owns the mutex or was killed; it never waits a second time |
| KernelLocks.Unlock | src/kernel/task/mutex.c:172-185 | Refused unless the caller owns the mutex; otherwise it is handed over |
| KernelLocks.Close | src/kernel/task/mutex.c:188-212 | Hands an owned mutex over and drops the reference of the task |
| KernelLocks.ReleaseAll | src/kernel/task/mutex.c:214-226 | Each mutex the caller had open loses a reference, and if the caller owned it goes to its first waiter of the highest priority; all others stay, and the caller has none open and owns none |
| KernelTasks.Find | src/kernel/task/task.c:530-544 | Returns the first task with this pid, or none |
| KernelTasks.SetPriorityExactly | src/kernel/task/task.c:833-847 | After the priority of a task is set, owners still run at least as high as their waiters if and only if the owner of the mutex the task waits for already has the new priority |
| KernelGap.GapReached | src/kernel/task/mutex.c:20-226 | A run of nine steps from the start of the kernel leads to a state in which a task waits for an owner that has its priority from there |
| KernelGap.SetPriorityGap | src/kernel/task/task.c:833-847 | In a run from the start of the kernel, with inheritance and exact priorities, setting the priority of a waiting user task leaves the owner below it |
| KernelTasks.SetPriority | src/kernel/syscall/syscall.c:388-396 | Refused for bad values, kernel threads and killed tasks; otherwise base and priority are what is due, and inheritance holds afterwards exactly under that condition |
| KernelTasks.Kill | src/kernel/task/task.c:630-651 | The task found gets the highest priority and is woken unless it waits for a child; refused for kernel threads; inheritance stays, and exactness under the condition of KilledExactly |
| KernelTasks.KilledExactly | src/kernel/task/task.c:630-651 | After a kill priorities are exact, for all tasks not killed, if and only if no owner has its priority from the killed task alone: it has it as its own, or from another waiter too |
| KernelTasks.KilledGoFirst | src/kernel/task/task.c:630-651 | While a killed task can run, one with the highest priority, 31, is picked, but for round robin |
| KernelGap.KillGap | src/kernel/task/task.c:630-651 | In a run from the start of the kernel, with exact priorities, killing a waiter leaves its owner with a priority nobody asks for |
| KernelTasks.Spawn | src/kernel/task/task.c:49-416 | A new task in the first free slot, ready if its program loads, the slot free again if not |
| KernelTasks.Sleep | src/kernel/task/task.c:696-707 | Sleeps exactly if the tick is ahead and the task was not killed |
| KernelTasks.WakeChannel | src/kernel/task/task.c:683-694 | Exactly the tasks blocked on the channel are ready |
| KernelTasks.Wait | src/kernel/task/task.c:546-568 | Refused for what is no child; waits for a child that runs, takes the exit code of one that ended and frees its slot |
| KernelTasks.Exit | src/kernel/task/task.c:570-628 | A zombie with its exit code and no mutex, each of which went to its first waiter of the highest priority; children go to the init thread; waiters for its pipes and end may go on; another task runs |
| KernelRun.WaitPeriod | src/kernel/task/task.c:813-831 | The deadline moves by a period; the task sleeps until the old one and learns whether it was missed |
| KernelRun.ReturnToUser | src/kernel/task/task.c:746-762 | A killed task exits, a requested switch happens, and otherwise the running task is not below any that could run and was not killed |
| KernelRun.Execute | src/kernel/task/task.c:531-847 | Every step of the kernel is one of the transitions above, and keeps ownership, scheduling and preemption; inheritance ends exactly where the priority of a waiter is set above its owner; a kill ends exactness exactly where a loan was needed |
| KernelRun.Run | src/kernel/task/mutex.c:20-226 | Over the whole of every run: owners have their mutexes open and live, mutexes without owner have no waiter, references and names agree, one task runs, and a needed switch is asked for; each step is a transition, and what is said of inheritance and exactness holds up to the step that ends it |
| KernelRun.RunInherits | src/kernel/task/mutex.c:72-87 | Owners run at least as high as all that wait for them, transitively, as long as no step sets the priority of a waiter above that of its owner |
| KernelRun.RunExact | src/kernel/task/mutex.c:89-111 | Each task not killed has exactly the maximum of its own priority and those of the waiters of its inherit mutexes, as long as no waiter is killed from whom alone an owner has its priority and none has its priority set |
| KernelPipes.Ring.Take | src/kernel/task/pipe.c:22-47 | The bytes taken from the ring are the oldest ones, in order, around its end |
| KernelPipes.Ring.Put | src/kernel/task/pipe.c:49-85 | The bytes put in follow those in the ring, as many as there is space for |
| KernelFiles.NoStandstill | src/kernel/task/pipe.c:22-85 | No reader waits for a pipe while a writer waits for the same pipe |
| KernelFiles.WaitsWhenItMust | src/kernel/task/pipe.c:22-85 | A task waits to write only at a pipe with 4096 bytes and a reader, and to read only at an empty one with a writer |
| KernelFiles.WritersAreHolders | src/kernel/task/handle.c:66-95 | A pipe has writers exactly as long as some descriptor holds its write end |
| KernelFiles.ReleasedKeeps | src/kernel/task/pipe.c:88-116 | Dropping the last reference to an end, waking all that wait and freeing the pipe with its last end keeps every count right and leaves no task waiting for a pipe that is gone |
| KernelPipes.Files.CloseHandle | src/kernel/task/handle.c:73-95 | One reference less, or the end of the handle; the terminal is never closed |
| KernelPipes.Files.InstallFd | src/kernel/task/task.c:465-477 | The lowest free descriptor gets the handle, or there is none and nothing changes |
| KernelPipes.Files.CloseFd | src/kernel/task/task.c:493-504 | The slot is free and its reference dropped; refused for what is not open |
| KernelPipes.Files.OpenFile | src/kernel/syscall/syscall.c:99-130 | A new handle in the lowest free descriptor exactly if there is memory and a free one; otherwise nothing at all changed |
| KernelPipes.Files.OpenPipe | src/kernel/syscall/syscall.c:183-215 | A new empty pipe with both ends in the lowest free descriptors exactly if there is memory and there are two; otherwise nothing at all changed |
| KernelPipes.Files.Spawn | src/kernel/task/task.c:359-462 | The child holds one reference more to each inherited handle, in descriptors 0 to 2 |
| KernelPipes.Files.Exit | src/kernel/task/task.c:570-628 | All descriptors are closed; handles and pipes that are left are as they were but for their counts, and other tasks at most woken |
| KernelPipes.Files.ReadOn | src/kernel/task/pipe.c:22-47 | Waits exactly while the pipe is empty with a writer left and the task not killed, and nothing else changes then; otherwise takes the oldest bytes off the pipe, delivers them and wakes the waiters |
| KernelPipes.Files.WriteOn | src/kernel/task/pipe.c:49-85 | What fits of the data goes behind what is in the pipe, the waiters are woken, and nothing else changes; waits with the rest exactly if a reader is left and the task not killed; otherwise says how much was written or that the pipe is broken |
| KernelPipes.Execute | src/kernel/task/pipe.c:22-116 | Each step of each task fixes the state after it: descriptors, handles, pipes with their bytes, calls and waiting tasks |
| KernelPipes.FirstInFirstOut | src/kernel/task/pipe.c:22-85 | Over every interleaving of any readers and writers, what was in a pipe followed by all bytes written to it is all bytes read from it followed by what is still in it; nothing else is ever read from a pipe that is gone |
| KernelPipes.Run | src/kernel/task/pipe.c:22-116 | Over every interleaving each step is one of these; at every moment reference counts equal the slots held and no task waits for what is there already, and bytes come out of each pipe as they went in |
| UserBlocks.LiveDisjoint | src/user/lib/moos.c:676-726 | Pointers handed out are aligned to 8, lie in the heap, and their payloads and headers are apart |
| UserMalloc.Heap.Malloc | src/user/lib/moos.c:676-726 | First fit, else new memory; null exactly if neither is possible, for every size; a new pointer with enough bytes, all others keep theirs, for sizes that fit; null or enough memory below the break if and only if the size is 0, fits a positive increment, or is refused |
| UserMalloc.WrappedSizes | src/user/lib/moos.c:676-726 | When a size that does not fit is refused: one that rounds to zero if no block is free and no header can be added, any other if its wrapped increment leaves the limits of the heap |
| UserMalloc.RefusedAnyway | src/user/lib/moos.c:676-726 | The smaller ones of the sizes that do not fit are refused whatever the heap is like |
| UserMalloc.FreshHeapWraps | src/user/lib/moos.c:676-726 | On a fresh heap a request for 0xFFFFFFF0 bytes is answered with a pointer, and the break stays where it is |
| UserMalloc.Heap.Sbrk | src/kernel/task/task.c:418-437 | The break moves by the increment exactly if it stays inside its limits, with room if it grows; otherwise it stays, with null |
| UserMalloc.Heap.MergeRuns | src/user/lib/moos.c:728-749 | No two neighbours are free afterwards, the blocks tile the heap, and the pointers handed out and their bytes are the same |
| UserMalloc.Heap.Free | src/user/lib/moos.c:728-749 | Exactly that pointer is given back; the list is merged; all other bytes handed out are kept |
| UserMalloc.Heap.Calloc | src/user/lib/moos.c:751-765 | Null exactly if the product is zero, passes 32 bits or is refused; otherwise that many zero bytes if the product fits, and too little memory if it does not |
| UserMalloc.Heap.Realloc | src/user/lib/moos.c:767-786 | The old contents are at the start of the pointer returned, moved only if the block is too small; all others keep theirs; null exactly if the size is refused, and nothing changes then; too little memory exactly for sizes that do not fit and are not refused |
| UserMalloc.Quotient | src/user/lib/moos.c:751-765 | The test by division finds exactly the products that do not fit |
| UserHeap.OwnerWrites | src/user/lib/moos.c:676-749 | Writing inside a payload harms neither the block list nor any other payload |
| UserProgram.Program.Run | src/user/lib/moos.c:676-786 | Over every run of allocations, resizes, frees and writes each command succeeds exactly under its condition, and the buffers of the program behave as independent byte strings |
| KernelHeap.FlagBytes | src/kernel/memory/heap/heap.c:61-85 | The flag byte of the first block of a run has bit 6, all but the last have bit 7, all have bit 0, and free blocks have none |
| KernelHeap.OneReading | src/kernel/memory/heap/heap.c:32-85 | A flag table stands for one set of runs only |
| KernelHeap.KHeap.Init | src/kernel/memory/heap/heap.c:7-29 | Refused for misaligned regions or a table of the wrong length; otherwise all blocks are free |
| KernelHeap.KHeap.FindFree | src/kernel/memory/heap/heap.c:32-59 | The first run of that many free blocks, an error exactly if there is none |
| KernelHeap.KHeap.Malloc | src/kernel/memory/heap/heap.c:61-117 | First fit; null exactly if no large enough run is free or the size rounds to nothing; the run was free and no other run changes |
| KernelHeap.KHeap.Free | src/kernel/memory/heap/heap.c:119-152 | Gives back exactly the run that starts at the pointer and refuses every other pointer |
| KernelHeap.KHeap.Stats | src/kernel/memory/heap/heap.c:154-166 | The blocks counted as used are those of all runs together |
| KernelHeap.KHeap.MallocThenFree | src/kernel/memory/heap/heap.c:103-152 | The table is as before |
| KernelHeap.NoRoomBefore | src/kernel/memory/heap/heap.c:32-117 | If no run of n blocks is free after k blocks were handed out, no run of (k + 1) n blocks was free before |
| KernelHeap.HeldApart | src/kernel/memory/heap/heap.c:103-117 | Runs handed out share no byte and lie in the heap |
| PageTables.OthersSee | src/kernel/task/task.c:200-254 | What one address space gets or is written leaves every byte another program reads as it was |
| PageTables.FramesApart | src/kernel/task/task.c:200-222 | No two mapped user addresses, of one task or of two, are the same byte of memory |
| AddressSpace.Machine.NewUser | src/kernel/memory/paging/page.c:59-84 | A directory that shares the kernel words and maps no user page; on failure nothing stays allocated |
| AddressSpace.Machine.UserEntry | src/kernel/memory/paging/page.c:86-113 | Finds the entry of the page, with a new empty table if allowed; the program sees no difference, nor does the processor (`PageWalk.MachineView`) |
| AddressSpace.Machine.UserPage | src/kernel/task/task.c:200-222 | The page is mapped, a new one full of zeros, and writable from now on if asked; no other page and no byte changes |
| AddressSpace.Machine.CopyToUser | src/kernel/task/task.c:226-254 | Exactly the pages of the stretch are mapped in addition, writable if asked, and the program sees the bytes copied and all others unchanged; fails only out of range or without memory, at a page that was not mapped, and then the part in front of it is done |
| AddressSpace.Machine.FreeTask | src/kernel/task/task.c:85-113 | Exactly the blocks the slot owns, pages, tables, directory and stack, are given back, each once |
| PageWalk.MachineView | src/kernel/memory/paging/page.c:86-113 | At every user address what the model says is mapped, read and writable is what the processor finds from the directory words on: word a / 4 MiB, the table in the block it names, entry a / 4096 modulo 1024, each present and open to ring 3 |
| PageWalk.KernelWords | src/kernel/memory/paging/page.c:59-84 | The directory words of all other addresses are those of the kernel |
| ElfLoader.ValidateHeader | src/kernel/task/elf.c:5-24 | The checks with wrapping sums accept exactly the headers that are right in unbounded arithmetic |
| ElfFile.ImageOfSegment | src/kernel/task/elf.c:26-84 | With segments apart, each byte of a segment is its byte in the file, or what was there past the part in the file |
| ElfLoader.ElfLoad | src/kernel/task/elf.c:26-84 | Accepts exactly the executables whose segments fit and hold the entry point, unless memory runs out; exactly the pages of segments are mapped, writable iff a writable one touches them; each byte is that of the last segment whose file part covers it |
| ElfLoader.SegmentsThere | src/kernel/task/elf.c:26-84 | In a started program with segments apart every segment byte is its file byte or zero |
| ElfLoader.GuardPage | src/kernel/task/task.c:256-300 | The page below the stack is not mapped when the program is loaded |
| ProgramBytes.Accepted | src/kernel/task/elf.c:5-84 | The loader takes exactly the files with the right numbers at their places: identification, type, machine, program headers in the file, segments from 0x40000000 to 0x43FFB000 with their part in the file, and the entry point in one |
| ProgramBytes.SegmentByte | src/kernel/task/elf.c:26-84 | What the processor reads at the address in a program header plus k is byte k of the part at its file offset, or 0 behind it, and may be written if its flags say so |
| ProgramBytes.StackByte | src/kernel/task/task.c:256-300 | The processor can read and write every byte of the stack, 0x43FFC000 to 0x44000000, and none of the page below |
| TaskArgs.PushArgs | src/kernel/task/task.c:304-333 | Refused exactly for more than 16 arguments or 1024 bytes; otherwise the program finds argc and argv at its stack pointer: an array of pointers to its arguments, each ended by a zero, with a null pointer at the end; below that nothing changes, and no page |
| ProgramBytes.ArgsBytes | src/kernel/task/task.c:304-333 | The processor reads the number of arguments at the stack pointer, behind it the address of an array of pointers ended by 0, and at each pointer the argument and a zero byte |
| ProgramBytes.ArgsLimit | src/kernel/task/task.c:304-333 | A program may have 16 arguments of 1024 bytes together, the zero bytes included |
| TaskStart.Spawn | src/kernel/task/task.c:101-386 | A started program has its segments, its stack with the arguments and nothing else mapped, in blocks no other slot owns; every failure leaves the heap, all slots and all memory handed out as they were; it fails for lack of memory only if the file is larger than any buffer or the kernel heap had no run of free blocks with room for the task |
| TaskStart.HeapStarts | src/kernel/task/task.c:256-300 | The heap of a started program is empty, on a page boundary behind its segments, with the page below the stack not mapped |
| TaskStart.Sbrk | src/kernel/task/task.c:418-437 | The break moves exactly if it stays inside its limits and there are pages; all pages from the start of the heap to the break are mapped for writing, no page but those of the growth is new, the page below the stack stays unmapped, and the program sees the same bytes, zeros on new pages |
| TaskStart.SbrkRun | src/kernel/task/task.c:418-437 | Over every run of such calls the heap is there up to the break, and the page below the stack is not; each call moves the break exactly if it may, unless it grows and no block is left, in which case none is left at the end either |

## Left out

- Hardware access: port I/O, ATA transfers, VGA, timers, serial lines, descriptor tables and all assembly. Time stamps, context switches, the floating point state and page directory loads do not appear.
- The desktop, terminal, shell, editors, demos and games, and the small library functions (strings, printing, sorting, calendar, keyboard and mouse rings).
- FAT assumptions: the fields of the boot sector are given, not read from it (src/file_system/fat/fat16.c:314-345); the disk never fails; the FAT copies of a mounted volume are equal and have an entry for every cluster; nothing follows the first end marker of a directory; file sizes stay below 2^31, the range of the positions. Sound volumes have cluster numbers up to 0xFFEF only; what goes wrong on larger ones is `FatReserved`.
- FatRun.Run: ends at the first command that would cut or remove a file that is open, or open one for a second write, because a descriptor holds its own copy of the directory entry (src/file_system/fat/fat16.c:1720-1735). To tell such a command, a descriptor in the table has the place of its file's entry besides.
- The drive in a path and the mode as a string (src/libc/stdio/stdio.c:132-195); allocations of descriptors do not fail.
- FatFiles.Read: the member size is positive, since the code divides by it.
- Path strings are given as normalised lists of parts; `.` and `..` are resolved before (src/file_system/path_parser.c:145-200). Lifetimes of loaded directories, listing, `fat16_stat` and failing allocations of the driver are not modelled.
- FatNaming.CreateNames: an alias may equal the long name of another item, because aliases are compared with 8.3 names only (src/file_system/fat/fat16.c:1427-1442), so the two kinds of names are shown distinct separately.
- Character functions of names (upper case, valid characters, the characters an alias keeps) are functions on bytes, without the C library calls behind them.
- PngInflate.Inflate: does not model malformed or truncated streams; the data is shorter than 2^29 bytes, so that bit positions fit 32 bits.
- The chunk walk of `IMG_Load`, file reading and palettes.
- KernelSched.RunsBeforeIsAhead: the order by deadline is claimed for each pick with all deadlines in one window of 2^31 ticks, not at every return to user mode: a late job carries on without asking for a switch (src/kernel/task/task.c:814-831).
- KernelRun.Run: a task that was killed while it was ready is excepted from preemption, because `task_kill` asks for no switch then. A task woken from sleep or from waiting for a child may go on with any step, which covers its loop going round again. Zombies are reaped at every switch to another task.
- KernelLocks.Lock: the channel and the awaited mutex of a task are stored after the boost here, before it in the code; the boost never looks at the running task.
- Foreground tasks, the screen, keyboard waits, program names and working directories of tasks, and job counters. A kill wakes a task from a keyboard wait, nothing else does.
- KernelPipes.Run: has its own view of tasks (descriptors, the pipe call they are in, killed or not) in which any task may run next; who runs when is the scheduler's part. Files and the terminal behind handles are not read or written. The pipe's buffer is a sequence there; that the ring in place behaves like one is `KernelPipes.Ring`. Ids stand for addresses of handles and pipes and are not reused, so that each pipe has a history of its own.
- KernelPipes.Files.Exit: a slot is cleared before its handle is closed, after it in the code; nothing runs in between.
- UserMalloc.Heap.Sbrk: whether pages can be mapped is the parameter `room` there; that they are is `TaskStart.Sbrk`. The heap of a program and the pages of its task are two models.
- UserMalloc.Heap.Malloc: where a size that does not fit is answered with a pointer, the block list may be broken afterwards, and nothing more is said of the heap.
- UserMalloc.Heap.Realloc: stops at that point, before it copies beyond the block it got.
- UserProgram.Program.Run: a run ends early at such an answer.
- AddressSpace.Machine.UserEntry: page tables are typed sequences with the address of their block, not words in the byte memory; directory words and entries have the values the processor reads.
- TaskStart.Spawn: covers memory only; the first kernel stack frame and the copy of the file in its buffer are not modelled (the buffer is allocated and freed). Arguments are shorter than 2^31 bytes.
- TaskStart.Sbrk: the start and the end of the heap are passed in and out, not kept in the task.
- Kernel page tables, `page_dir_init`, `virtualize_mem` and the handling of page faults.
