# dkfs, modelled and proved

dkfs is the file system crate of Donkey FS: a small Unix-style file system on one device. This project models its
on-disk structures and the code that keeps them, and proves what that code maintains.

## How the model is laid out

- `Arith`, `Codec`: number arithmetic; fixed-width little-endian records and pointer blocks.
- `Regions`, `Areas`, `Layout`: the free lists as lists of regions, their chains of headers on the device, and the
  layout of superblock, inode table and data area.
- `Donkey` (module `DonkeyFs`): a class with the device bytes and the superblock, updated in place. Ghost fields name
  what they mean: inode slots, data blocks, and the two region lists. `Valid` ties all of them together.
- `Positions`, `BlockMap`: nodes of the five pointer levels as positions (tree, height, index); a file's inode pointers,
  its write-back pointer cache and the ghost map from positions to block numbers that they represent together.
- `Frames`, `Contents`, `Need`, `Release`: what the steps of one file do to disk, free list and counters; bytes read and
  written; the nodes that a range of bytes needs; truncation and destruction.
- `Samples`, `Walk`: concrete files on which truncation or destruction goes wrong; the walk of `clear_pointers_rec` as a
  function of an arbitrary, possibly outdated disk.
- `Attributes`: the stream of extended attributes.
- `File` (module `DkFiles`): the class `DkFile`, with inode, position, attributes, cache and dirty mark updated in place.
- `Isolation`: whole runs over many files that share the device.
- `Buffer`, `Directory`: the buffered writer in front of a directory's file; the directory stream and the class `DkDir`.
- `Links`, `Tables`, `Operations`, `Syncing`, `Kinds`: open tables, pending lists, handle counts, entries and link
  counts as values; the calls of `Handle` that change the tree, and those that only use handles; the kinds of inodes.
- `Tree` (module `Trees`), `Histories`: the calls, and what each does to a plain tree of entries, kinds and handles; whole
  histories of calls, whose tables show the tree that the calls make.
- `Mount` (module `Mounting`): the tables as a class, with loops and updates in place; its methods keep the invariant
  and state each call's effect.
- `Volume` (module `Volumes`): the directories of a history on a device with blocks and files.

The block size is a parameter: any multiple of 8 for which a block can hold a free-list header and at least two
pointers. Machine widths are explicit where the code depends on them: 64-bit words in every encoding, signed 64-bit
positions in `seek`, and a device smaller than 2^64 bytes.

## Main results

- Over every run of allocations and frees the free chain and the units in use partition the area, allocation is
  complete, and the recursion of `allocate_from_free`, which would lose regions, is never taken.
- The pointer cache refines a plain map: `locate` returns the plain lookup on the overlaid disk, and `locate_alloc`
  changes the map at most at one index, for all five levels and every eviction on the way.
- Reading after writing returns what was written, over any number of blocks, and nothing else changes. A write succeeds
  exactly when the pointer and data blocks that its range still misses are no more than the free ones.
- On a clean cache truncation frees exactly the nodes at or above the cut, each once. It leaves a coherent file exactly
  when the cut is safe (`Release.TruncatedOk`): no surviving pointer block has a freed child, and no freed pointer block
  is still in the cache. It keeps the mappings below the cut exactly when no direct pointer is swept away with it
  (`Release.TruncateKeepsBelow`). On a clean cache destruction gives every block back exactly when the size is positive
  or there is nothing but an xattr block (`DkFiles.DkFile.Destroy`). `Samples` has a coherent file for each failure, and
  for the walk of a disk that is behind the cache.
- No step of one file changes what any other file maps or reads, over every run. Reads, writes and attribute writes that
  fit a block are such steps always, a truncation exactly when it is safe (`Isolation.TruncationIsWork`); an unsafe one
  breaks isolation in `Isolation.StaleExample`, attributes longer than a block in `DkFiles.SpillOver`.
- Flushing, dropping and reopening a linked file is transparent, unless its attributes are longer than a block, after
  which it cannot be opened (`DkFiles.CloseAndReopen`); and so it is for a directory and its entries whenever
  the blocks that its stream still needs are free (`Directory.CloseAndReopenDir`). `DkDir::flush` fails exactly when the
  bytes that have to leave its 8 KiB buffer before the end mark is taken need more blocks than are free; what is still in
  the buffer then can be lost although it reports success (`Directory.DkDir.Flush`, `Directory.FlushFailsFull`,
  `Directory.FlushLosesEntry`). A file that ends within the stream is recognised when it is opened
  (`Directory.OpenCutDir`).
- What a valid device holds is read back: the superblock (`DonkeyFs.Open`), and every field of a new inode
  (`DkFiles.MakeNode`).
- Over every history of calls, `flush`, `fsync` and `fsyncdir` included, the entries are those of the tree that the calls
  make, written out call by call with map updates (`Histories.StepMirrors`, `Histories.HistoryMirrors`). Link counts are
  exact, nothing named or held is destroyed, releases leave nothing pending, what is synchronized is on disk, and
  unmounting leaves exactly that tree and its counts there (`Histories.UnmountComplete`). Reading the directories of such
  a device back gives it again (`Volumes.TreeReadBack`).

## Facts about the code that the proofs depend on

- `free_file_db` clears all 12 direct pointers whenever the cut is below 12 (dkfs/src/file.rs:389-396).
- `clear_pointers_rec` does not write a surviving pointer block back (dkfs/src/file.rs:430-440), and nothing empties the
  pointer cache: after a cut the next write-back of a freed cached block goes to a block that may be another file's.
- Truncation and destruction walk the disk, not the pointer cache, and `flush` does nothing for an unlinked file
  (dkfs/src/file.rs:47). On a clean cache the walk is right (`Walk.CleanFrees`); on an unclean one it can miss blocks
  (`Walk.HungLeaks`) and free foreign ones (`Walk.StaleRootFrees`).
- `update_size` frees only when the size shrinks (dkfs/src/file.rs:372), so a file of size 0 that has tree blocks keeps them.
- `DkDir::flush` writes through a `BufWriter` that it drops without flushing, after which the directory counts as clean;
  an error of the flush in the drop goes nowhere (dkfs/src/file.rs:502-520).
- `write_xattr` does not compare the length of its stream with the block (dkfs/src/file.rs:121-127), an attribute with an
  empty name ends the stream, `read_xattr` reads one block only (dkfs/src/file.rs:95), and releasing the xattr block does
  not lower `inode.blocks` (dkfs/src/file.rs:109-115).
- Fresh data blocks are not zeroed and a hole ends a read (dkfs/src/file.rs:226-249, dkfs/src/file.rs:341).
- `mkdir` makes the directory before it looks at its parent's entries, so a taken name leaves an unlinked directory
  behind whose `..` still counts (dkfs/src/ops.rs:201-204). `rename` does not change the `..` of a moved directory.
- README.md:64 promises files of about 256 TB; the five levels reach past 2^48 bytes at 4096-byte blocks.

## Model

| member | source | states |
|---|---|---|
| Codec.DecodeEncode | dkfs/src/block.rs:219-225 | A number that fits its width is read back from its little-endian bytes. |
| Codec.EncodeDecode | dkfs/src/block.rs:206-217 | Every byte string is the encoding of the number read from it. |
| Codec.RecordRoundTrip | dkfs/src/block.rs:155-188 | A record of fixed-width fields survives its encoding, whatever stale bytes follow it in its slot. |
| Codec.RecordCanonical | dkfs/src/block.rs:155-188 | A byte string of the right length is the encoding of the record read from it, so no two byte strings decode alike. |
| Codec.PtrBlockRoundTrip | dkfs/src/block.rs:206-225 | A pointer block of 64-bit words decodes to the words that were encoded. |
| Codec.PtrBlockCanonical | dkfs/src/block.rs:206-225 | Any byte string whose length is a multiple of 8 is the encoding of the pointer block decoded from it. |
| Layout.SuperRoundTrip | dkfs/src/block.rs:35-55 | The superblock that was written is read back field by field, whatever follows it on the device. |
| Layout.SuperOffsets | dkfs/src/block.rs:35-44 | Each field is where the struct's order puts it in the 64 bytes, the magic number first. |
| Layout.OtherMagic | dkfs/src/block.rs:47-55 | Bytes are accepted exactly when there are 64 of them and the first word is the magic number; too few are an I/O error, another number is corruption. |
| Layout.InodeRoundTrip | dkfs/src/block.rs:62-80 | An inode written over the front of any 256-byte slot is read back field by field, provided each field fits its machine type. |
| Layout.InodeOffsets | dkfs/src/block.rs:62-80 | Number, mode, owner, link count, timestamps, size, counter, device and xattr pointer are at the byte offsets that the struct's order and widths give. |
| Layout.PtrOffsets | dkfs/src/block.rs:62-80 | So are the 12 direct pointers and the four roots. |
| Layout.NodeStored | dkfs/src/lib.rs:338-353 | An inode with nothing but number, mode, owner, link count, times and device set can be stored whenever these fit their machine types. |
| Layout.InodeNumbers | dkfs/src/block.rs:94-103 | `Inode::ino` and `Inode::ptr` are inverse on slots, and different inode numbers have disjoint slots. |
| Layout.StillFits | dkfs/src/block.rs:62-80 | Changing size, counter and pointers of an inode that fits its record leaves one that fits, as long as they are 64-bit numbers. |
| Layout.LayoutFits | dkfs/src/lib.rs:107-125 | For every block size, device size and inode count that leave an inode and a block, superblock, inode table and data area follow one another, do not overlap, and end with the device; the data area begins at the first block boundary behind the table. |
| Regions.CarveOk | dkfs/src/lib.rs:269-288 | First-fit carving keeps regions disjoint and in bounds and hands out only units that were free. |
| Regions.CarveKeepsAll | dkfs/src/lib.rs:269-288 | The recursion to a later region loses the regions before it: carving keeps all other units exactly when the head region is large enough. |
| Regions.HeadFits | dkfs/src/lib.rs:269-288 | For single units the head region always is large enough, so nothing is lost and the recursion is never taken. |
| Regions.GiveOk | dkfs/src/lib.rs:444-453 | Pushing a freed unit adds exactly that unit and keeps the regions disjoint. |
| Regions.GiveThenCarve | dkfs/src/lib.rs:269-288 | Freeing a unit and allocating again returns the same unit and restores the same chain. |
| Regions.AllocComplete | dkfs/src/lib.rs:313-325 | Allocation fails only when every unit is in use, and never hands out a unit in use. |
| Regions.RunOk | dkfs/src/lib.rs:291-325 | Over every run of allocations and frees, chain and units in use partition the area. |
| Regions.FreshPoolOk | dkfs/src/lib.rs:127-139 | The one-region chains that `format` writes satisfy that invariant. |
| Areas.SpliceUnit | dkfs/src/device.rs:52-66 | A write inside one unit changes that unit and no other byte of the area. |
| Areas.SpliceOutside | dkfs/src/device.rs:52-66 | A write outside an area leaves all its units alone. |
| Areas.CarveChained | dkfs/src/lib.rs:269-288 | Writing the header of the remainder leaves on the device exactly the chain of the carved list. |
| Areas.GiveChained | dkfs/src/lib.rs:444-453 | Writing one header into the freed unit leaves on the device exactly the chain with that unit in front. |
| DonkeyFs.Donkey.Format | dkfs/src/lib.rs:107-145 | Establishes the system invariant: superblock on disk, the inode table of 256-byte slots at 2048 and the data area disjoint, and one free region covering each of them, so that the first inode handed out is `ROOT_INODE`. |
| DonkeyFs.Open | dkfs/src/lib.rs:102-105 | Reads and checks the superblock at 1024; the device that a valid `Donkey` has left opens as a valid `Donkey` with the same superblock, areas, slots, blocks and free lists. |
| DonkeyFs.SuperReadBack | dkfs/src/lib.rs:102-105 | On a valid device every field of the superblock fits 64 bits and is read back. |
| DonkeyFs.Donkey.WriteAt | dkfs/src/device.rs:52-66 | Writes the bytes at their place and nothing else, or reports corruption when they would pass the end of the device. |
| DonkeyFs.Donkey.ReadLenAt | dkfs/src/device.rs:33-45 | Returns the bytes asked for, or reports corruption when they would pass the end of the device. |
| DonkeyFs.Donkey.AllocateFromFree | dkfs/src/lib.rs:269-288 | Returns the first region that fits and the head of the carved chain, and changes no byte of a unit in use. |
| DonkeyFs.Donkey.FlushSb | dkfs/src/lib.rs:214-216 | The superblock on disk becomes the one in memory, and nothing else changes; `DonkeyFs.Open` reads it back. |
| DonkeyFs.Donkey.AllocateDb | dkfs/src/lib.rs:313-325 | Fails with `Exhausted` exactly when every block is in use; otherwise hands out the head block, counts it, and keeps the system invariant and every other block. |
| DonkeyFs.Donkey.FreeDb | dkfs/src/lib.rs:444-453 | The block becomes free, is counted, and only its own bytes change. |
| DonkeyFs.Donkey.AllocateInode | dkfs/src/lib.rs:291-302 | The same for inode slots; the number returned is that of the head slot. |
| DonkeyFs.Donkey.FreeInode | dkfs/src/lib.rs:432-442 | The slot becomes free and is counted; all other slots keep their bytes. |
| DonkeyFs.Donkey.WriteBlock | dkfs/src/lib.rs:206-208 | A write into an allocated block changes that part of that block only. |
| DonkeyFs.Donkey.ReadBlock | dkfs/src/lib.rs:191-204 | Returns the part of the block asked for. |
| DonkeyFs.Donkey.WriteInode | dkfs/src/lib.rs:308-310 | Puts the inode at its place on the device; on a valid device that is its own slot, and every other slot and block is left alone. |
| DonkeyFs.Donkey.ReadInode | dkfs/src/lib.rs:304-306 | Reads the bytes at the inode's place and returns them decoded, or reports corruption when they end past the device or the number in them is below `ROOT_INODE`; on a valid device this is the inode in its slot. |
| Positions.FirstOfChild | dkfs/src/file.rs:413-441 | The children of a node split its range of block indexes into `pc` equal consecutive pieces. |
| Positions.TreeUnique | dkfs/src/file.rs:142-155 | Each block index lies in exactly one of the direct range and the four trees. |
| Positions.PathStep | dkfs/src/file.rs:298-330 | One step of the descent by quotient and remainder stays on the path to the block. |
| Positions.DigitsValue | dkfs/src/file.rs:298-330 | The digits visited from a root have exactly the offset as their value. |
| Positions.ValueDigits | dkfs/src/file.rs:298-330 | Every string of in-range digits is the path of its value. |
| Positions.PathBijection | dkfs/src/file.rs:142-155 | Block indexes below 12 + pc + pc^2 + pc^3 + pc^4 and in-range paths correspond one to one. |
| Positions.LimitAt4096 | README.md:64 | With 4096-byte blocks that limit is between 2^48 and 2^49 bytes. |
| BlockMap.CoherentFrame | dkfs/src/file.rs:157-164 | A file depends on the contents of its own blocks only. |
| BlockMap.EvictKeeps | dkfs/src/file.rs:157-164 | Writing a cached block back leaves the block map as it was and the slot clean. |
| BlockMap.LoadKeeps | dkfs/src/file.rs:270-295 | Replacing a clean cached block by another block of the file leaves the block map as it was. |
| BlockMap.ReopenKeeps | dkfs/src/file.rs:82-91 | A clean map read again with an empty cache is the same map. |
| BlockMap.PlantedKeeps | dkfs/src/file.rs:167-185 | A fresh block hung from the inode adds exactly its own node. |
| BlockMap.HungKeeps | dkfs/src/file.rs:187-217 | A fresh block hung below a cached pointer block adds exactly its own node, which was absent. |
| BlockMap.DescendIsLookup | dkfs/src/file.rs:298-330 | On a clean map the plain descent through disk blocks finds exactly the leaf of the map. |
| BlockMap.CleanLookup | dkfs/src/file.rs:298-330 | So does the whole uncached lookup, for every block index. |
| BlockMap.LookupRefines | dkfs/src/file.rs:298-330 | The write-back cache refines a plain map: the map is the uncached lookup on the disk overlaid by the cached blocks. |
| BlockMap.DiskShowsMap | dkfs/src/file.rs:413-441 | The disk alone shows the map exactly when the cache is clean, which is what a truncation or destruction, walking the disk, needs. |
| BlockMap.HungUnseen | dkfs/src/file.rs:187-217 | A block just hung below a cached pointer block is in the map but not in the disk words of its parent until the cached block is written back (`Walk.HungLeaks` draws the consequence). |
| Frames.PlantStep | dkfs/src/file.rs:167-185 | Allocating a root moves one block from the free list to the file, moves both counters by one, and touches no foreign block. |
| Frames.HangStep | dkfs/src/file.rs:187-217 | The same for a child of a cached block, with the eviction before it. |
| Frames.LoadStep | dkfs/src/file.rs:270-295 | Evicting one block and loading another changes neither map nor inode nor data blocks. |
| Frames.LeafWrite | dkfs/src/file.rs:350-363 | Overwriting a data or xattr block changes no pointer. |
| Frames.XattrAdd | dkfs/src/file.rs:109-130 | Adding the xattr block leaves lookups and data blocks alone and keeps the file coherent. |
| Frames.XattrRemove | dkfs/src/file.rs:109-130 | So does removing it, once its block is back on the free list. |
| Frames.ExtendedTrans | dkfs/src/file.rs:223-249 | Steps that only add nodes, at most one of them a given data block, compose. |
| Contents.ReadUnique | dkfs/src/file.rs:332-348 | A read has one possible outcome: the bytes up to the least of the requested end, the file size and the first hole. |
| Contents.QuietBytes | dkfs/src/file.rs:157-164 | Writing pointer blocks back does not show in the contents. |
| Contents.BlockWrite | dkfs/src/file.rs:350-363 | The part of a write that falls into one block changes exactly those bytes of the file. |
| Contents.WroteOn | dkfs/src/file.rs:350-363 | Consecutive writes compose to one write of the concatenated bytes, over any number of blocks and all five pointer levels. |
| Contents.ReadBack | dkfs/src/ops.rs:170-188 | After a write, a read of the written range returns exactly what was written. |
| Contents.ReadElsewhere | dkfs/src/ops.rs:170-188 | A read elsewhere, below the old size and in mapped blocks, returns what it returned before the write. |
| Contents.InsideLimit | dkfs/src/file.rs:142-155 | A position below a reachable size has a block index that the descent can handle. |
| Contents.SizeExactly | dkfs/src/file.rs:142-155 | Sizes within reach are exactly those whose last byte lies in a block that the five levels reach. |
| Release.NothingUnder | dkfs/src/file.rs:413-441 | Nothing is mapped below an absent node, so a zero pointer ends the recursion rightly. |
| Release.DoomedStep | dkfs/src/file.rs:413-441 | The running index agrees with the descent: after child `i` exactly the nodes below the first index of child `i + 1` and at or above the cut are freed. |
| Release.DoomedTree | dkfs/src/file.rs:397-409 | The nodes of one tree that a truncation frees are exactly those whose first block index is at or above the cut. |
| Release.PartialConserves | dkfs/src/file.rs:387-441 | Freed nodes leave the file exactly as their blocks join the free list, and both counters move with them. |
| Release.TruncatedOk | dkfs/src/file.rs:387-441 | What a truncation leaves, its cache included, is coherent exactly when the cut is safe: no surviving pointer block has a freed child (its cleared words are not written back) and no freed pointer block is in the cache (which is never emptied). Either way no block of a survivor is free. |
| Release.TruncatedClean | dkfs/src/file.rs:387-441 | Where no freed block is in the cache the cache stays clean, so another truncation may follow. |
| Release.StaleSlot | dkfs/src/file.rs:157-164 | The block behind a stale cache slot is free after the cut, and the next write-back of the slot goes there. |
| Release.DanglingWord | dkfs/src/file.rs:430-440 | A surviving pointer block with a freed child keeps, on disk, a word that points at a free block. |
| Release.TruncatedLookup | dkfs/src/file.rs:387-410 | Nothing at or above the cut is mapped afterwards, and from block 12 on lookups below it are unchanged. |
| Release.TruncateKeepsBelow | dkfs/src/file.rs:389-396 | Every block below the cut keeps its mapping exactly when the cut is at least 12 or no direct pointer below it is set. |
| Release.DescendKept | dkfs/src/file.rs:413-441 | The plain descent on disk below the cut meets surviving blocks only and finds what it found before. |
| Release.PlainLookupKept | dkfs/src/file.rs:387-441 | On disk, too, every lookup below the cut (from block 12 on, if the cut is below 12) is unchanged, dangling words or not. |
| Release.CleanCuts | dkfs/src/file.rs:387-410 | A cut at 12 or below, or at the start of a tree, never leaves a dangling pointer. |
| Release.DestroyComplete | dkfs/src/file.rs:370-384 | Once the blocks that destruction frees are back, all of the file is free and counted exactly when the size was positive or there was nothing but an xattr block. |
| Samples.SampleOk | dkfs/src/file.rs:223-249 | A concrete coherent, clean file of 14 blocks with its pointer block, cached or not, on any area of at least 15 blocks. |
| Samples.TruncateLosesDirect | dkfs/src/file.rs:389-396 | That file, cut to one block, loses block 0 too: its block is free and its lookup gives nothing. |
| Samples.TruncateLeavesDangling | dkfs/src/file.rs:430-440 | Cut to 13 blocks, its pointer block survives with the pointer of block 13 on disk, a free block, and the file is not coherent. |
| Samples.TruncateLeavesStale | dkfs/src/file.rs:387-441 | Flushed with its pointer block cached and cut to nothing, nothing straddles, yet the slot names a free block and the file is not coherent. |
| Samples.DestroyKeepsRoot | dkfs/src/file.rs:370-384 | A coherent file of size 0 with one empty pointer block, as a first write at block 12 on a nearly full device leaves it: destruction frees nothing of it. |
| Samples.DestroyLeaks | dkfs/src/file.rs:443-450 | The file of 14 blocks with its pointer block cached and a block just taken for its next one: the walk of the disk does not free that block. |
| Samples.DestroyFreesHeader | dkfs/src/file.rs:167-185 | The first file of a formatted device, written at block 12 and never flushed: the walk hands the size of the free region to `free_db` as a pointer. |
| Walk.CleanFrees | dkfs/src/file.rs:413-441 | Read as a function of an arbitrary disk, the walk over a clean file frees exactly the nodes at or above the cut below its argument, each once. |
| Walk.LastBlockFrees | dkfs/src/file.rs:413-441 | Below a last-level pointer block the walk frees whatever words the disk has there, in order. |
| Walk.HungLeaks | dkfs/src/file.rs:443-450 | A block just hung below a cached pointer block of any height is not freed by the walk of a disk that was up to date before, until the slot is written back. |
| Walk.StaleRootFrees | dkfs/src/file.rs:167-185 | A root block just taken from the free list still holds its header: the walk frees the next free region and the old region size as if they were pointers, though the file has no block there. |
| DkFiles.DkFile.LevelOff | dkfs/src/file.rs:142-155 | Returns the unique tree and offset of a block index. |
| DkFiles.DkFile.WriteBack | dkfs/src/file.rs:197-203 | Writes one cached block to its own place on disk. |
| DkFiles.DkFile.LoadPtrs | dkfs/src/file.rs:252-267 | Brings the root block of a tree into its slot, or tells that there is none; the block map does not change. |
| DkFiles.DkFile.LoadPtrsInCache | dkfs/src/file.rs:270-295 | Brings the child of a cached block into the slot below, or tells that there is none; the block map does not change. |
| DkFiles.DkFile.Locate | dkfs/src/file.rs:298-330 | Returns exactly the block the map has for the index; map, inode and data blocks stay as they are, whatever is evicted on the way, and a clean cache stays clean. |
| DkFiles.DkFile.AllocTop | dkfs/src/file.rs:223-231 | Fills an empty pointer of the inode with a fresh block, or reports that the device is full. |
| DkFiles.DkFile.LoadPtrsAlloc | dkfs/src/file.rs:167-185 | As `LoadPtrs`, allocating the root if it is absent. |
| DkFiles.DkFile.LoadPtrsInCacheAlloc | dkfs/src/file.rs:187-217 | As `LoadPtrsInCache`, allocating the child if it is absent. |
| DkFiles.DkFile.AllocLeaf | dkfs/src/file.rs:238-249 | Fills an empty word of the last pointer block with a fresh data block. |
| DkFiles.DkFile.LocateAlloc | dkfs/src/file.rs:223-249 | Returns the block the new map has for the index; at most that entry is new, old data blocks keep their bytes, and when the device is full the counters still match the nodes added. |
| Need.DescentOnPath | dkfs/src/file.rs:223-249 | The positions met on the way to a block index are those of its path. |
| Need.EnoughFree | dkfs/src/file.rs:350-363 | A write that got all its bytes in had at least the missing nodes of its range free. |
| Need.TooFewFree | dkfs/src/file.rs:350-363 | A write that stopped on a full device missed more nodes than were free. |
| DkFiles.DkFile.SeekStart | dkfs/src/file.rs:62-79 | Moves to the position, or rejects one from 2^63 on, which is negative as a signed 64-bit number, and stays. |
| DkFiles.SeekReaches | dkfs/src/file.rs:62-79 | With 4096-byte blocks every position below the limit of the five levels can be sought to. |
| DkFiles.DkFile.DkRead | dkfs/src/file.rs:332-348 | Returns the file's bytes from the position on, up to a block end, and nothing only at the end of the file or in a hole; a clean cache stays clean. |
| DkFiles.DkFile.DkWrite | dkfs/src/file.rs:350-363 | Writes a non-empty prefix of the buffer at the position, or fails only because the device is full. |
| DkFiles.DkFile.WriteAll | dkfs/src/ops.rs:181-188 | The loop of writes: everything, or the prefix before a full device, growing the map by nodes on the paths of the range only. |
| DkFiles.DkFile.Read | dkfs/src/ops.rs:170-179 | Returns exactly the bytes up to the least of the requested end, the file size and the first hole, and changes nothing visible; a clean cache stays clean, so a file can be read before it is destroyed. |
| DkFiles.DkFile.Write | dkfs/src/ops.rs:181-188 | Writes all the data exactly when the blocks that its range still misses, pointer blocks included, are no more than the free ones; otherwise a prefix. All other bytes keep their values and data blocks are added only in the written range. |
| DkFiles.DkFile.WritePtrCache | dkfs/src/file.rs:157-164 | Leaves the map as it was and every cached block clean. |
| DkFiles.DkFile.WriteXattr | dkfs/src/file.rs:109-130 | Stores the attributes so that they are read back exactly when none has an empty name; there is an xattr block afterwards exactly when there are attributes. A stream longer than a block is not refused but spliced into the device from the xattr block on. The block counter is ahead by one more exactly after a release. |
| DkFiles.DkFile.ReadXattr | dkfs/src/file.rs:93-107 | Finds the attributes of the stream in the block that the inode names, or the error of that stream; without a block there are none. |
| Attributes.AttrsRoundTrip | dkfs/src/file.rs:109-130 | The stream of named attributes, in any order and with any older bytes behind it, parses to exactly those attributes. |
| Attributes.AttrsReadBack | dkfs/src/file.rs:93-130 | What is read back is what was stored exactly when no attribute has an empty name, because the empty name ends the stream. |
| Attributes.CutStream | dkfs/src/file.rs:93-107 | A stream that is cut short anywhere has no end mark, and reading it is an I/O error. |
| Attributes.SerializeAttrs | dkfs/src/file.rs:109-130 | The loop produces the stream of all attributes, each once. |
| Attributes.ReadAttrs | dkfs/src/file.rs:93-107 | The loop computes the specified parse, errors included: a stream that ends early is an I/O error. |
| DkFiles.SpillOver | dkfs/src/file.rs:109-130 | Attributes longer than a block have replaced the start of the next block on the device, whoever it belongs to. |
| DkFiles.DkFile.FreeXattr | dkfs/src/file.rs:109-130 | Gives the xattr block back and leaves the block counter as it is. |
| DkFiles.DkFile.Flush | dkfs/src/file.rs:46-60 | A linked file is clean afterwards, with inode, map and (named) attributes on disk; an unlinked or clean one is left untouched. Attributes longer than a block go over what follows their block; the call fails only when that passes the end of the device, or for want of a block. |
| DkFiles.DkFile.FreeNode | dkfs/src/file.rs:413-441 | Frees one node not yet freed; the block counter is positive before and lower by one after. |
| DkFiles.DkFile.ClearPointersRec | dkfs/src/file.rs:413-441 | Frees every node below its argument whose first block index is at or above the cut, each once, and tells whether the argument itself is to be freed. |
| DkFiles.DkFile.FreeDirect | dkfs/src/file.rs:389-396 | Frees all the direct blocks and clears all 12 pointers. |
| DkFiles.DkFile.FreeTrees | dkfs/src/file.rs:397-409 | Frees, over the four trees, exactly the nodes at or above the cut and clears the roots among them. |
| DkFiles.DkFile.FreeFileDb | dkfs/src/file.rs:387-410 | On a clean cache, frees exactly the nodes that `Release.TruncatedLookup` speaks of, each once, with both counters and the inode pointers following; the file is valid afterwards exactly when the cut is safe. |
| DkFiles.DkFile.UpdateSize | dkfs/src/file.rs:370-384 | Growing records the size only and keeps the file valid; shrinking frees from the next block boundary on, and the file is valid afterwards exactly when that cut is safe. |
| DkFiles.NextBlockOfPos | dkfs/src/file.rs:137-140 | The number of blocks is the least that covers the position. |
| DkFiles.DkFile.ReleaseBlocks | dkfs/src/file.rs:443-450 | Gives back the blocks of `DestroyFrees`, each once. |
| DkFiles.DkFile.Destroy | dkfs/src/file.rs:443-450 | All blocks of the file are free afterwards, counted once, exactly when the size was positive or there was nothing but an xattr block; the inode slot is free and counted in any case, and all other slots keep their bytes. |
| DkFiles.MakeNode | dkfs/src/lib.rs:328-356 | `mknod` fails only when no slot is free. Otherwise the head slot reads back as an inode with the number, mode, owner, link count, times and device given, and with size, block counter, xattr pointer and every block pointer 0; every other inode in use and every data block is as before. |
| DkFiles.OpenNew | dkfs/src/lib.rs:392-411 | Opening the inode just made gives a valid, clean file of size 0 without blocks, at position 0. |
| DkFiles.Reopen | dkfs/src/lib.rs:392-411 | A clean file opened again has the same inode and map, an empty cache, position 0 and the attributes that the stream in its xattr block holds; it fails exactly when that stream does not parse. When the stream runs over the end of its block, what is parsed is the part in the block. |
| DkFiles.CloseAndReopen | dkfs/src/lib.rs:230-236 | Flushing a linked file, dropping it and opening it again gives the same size, link count, lookups and bytes, and the same attributes if all have names; with attributes that have names but do not fit a block the file can no longer be opened. |
| DkFiles.XattrLookups | dkfs/src/file.rs:109-130 | Writing attributes is invisible to lookups and reads. |
| DkFiles.CounterExact | dkfs/src/file.rs:109-130 | Over every run of calls on a file its block counter is ahead of the blocks it has by exactly the number of xattr blocks released: `write_xattr` counts up when it adds one and not down when it frees it. |
| DkFiles.InodeStillFits | dkfs/src/block.rs:62-80 | The pointers of a valid file fit 64 bits, so its inode can be stored as long as its size and its counter do. |
| Isolation.StepPartitioned | dkfs/src/lib.rs:313-325 | Every step of every file keeps the data area partitioned into free blocks and the pairwise disjoint blocks of the files. |
| Isolation.StepUndisturbed | dkfs/src/file.rs:157-363 | A step of one file changes neither the map nor any byte of another. |
| Isolation.RunIsolated | dkfs/src/file.rs:157-363 | Over every run of such steps the partition holds, and a file that no step names keeps its map and its bytes. Truncations belong to a run exactly when they are safe (`Isolation.TruncationIsWork`). |
| Isolation.UndisturbedLookups | dkfs/src/file.rs:298-330 | Such a file also gives the same uncached lookups from disk and cache. |
| Isolation.OperationIsWork | dkfs/src/file.rs:157-363 | What lookups, allocations, writes and attribute writes promise is a step of the file they work on. |
| Isolation.TruncationIsWork | dkfs/src/file.rs:370-441 | A truncation is such a step exactly when it is safe. |
| Isolation.StaleOverwrites | dkfs/src/file.rs:157-164 | After an unsafe cut, once a freed cached block holds data of another file, writing the slot back replaces those data by its pointers. |
| Isolation.StaleExample | dkfs/src/file.rs:157-164 | Two concrete files: the one of 14 blocks, flushed and cut to nothing, and a new one of zeros on its old pointer block, whose bytes the next write-back changes. |
| Isolation.NewCreates | dkfs/src/lib.rs:328-356 | A file just made is a step of that kind, too. |
| Isolation.GivenRemoves | dkfs/src/file.rs:443-450 | What `destroy` promises is the removal of the file. |
| Isolation.OthersStayValid | dkfs/src/lib.rs:148-155 | While one open file is worked on, every other open file stays valid with its own blocks and bytes. |
| Isolation.OthersSurvive | dkfs/src/file.rs:443-450 | While an open file is destroyed, every other open file stays valid with its own blocks and bytes, whether or not all blocks of the dying one are given back. |
| Isolation.FreshPartition | dkfs/src/lib.rs:107-145 | A freshly formatted data area is partitioned, with no file. |
| Directory.ParseEntry | dkfs/src/file.rs:522-547 | One serialized entry is parsed to its number and name, and the rest follows. |
| Directory.StreamRoundTrip | dkfs/src/file.rs:502-547 | Reading a flushed directory gives its entries back, in whatever order they were written and whatever older bytes follow the end mark. |
| Directory.CutStream | dkfs/src/file.rs:522-547 | Every proper prefix of a stream, wherever it is cut, is rejected as an I/O error. |
| Directory.BadNumber | dkfs/src/file.rs:532-545 | After any entries a number below the end mark is corruption, whatever follows. |
| Directory.DirectoryReadBack | dkfs/src/file.rs:502-547 | After the stream is written at position 0 of a file, however long, a read of the whole file parses to the same entries. |
| Directory.CutReadBack | dkfs/src/file.rs:522-547 | A file that ends within a stream, read as a whole, gives an I/O error. |
| Directory.PrefixRead | dkfs/src/file.rs:522-547 | A read of a whole file starts with what was last written at its start. |
| Buffer.Take | dkfs/src/file.rs:502-520 | How far bytes get that pass the buffer on a device that never fills: none is lost, none comes back, and at most 8192 are held. |
| Buffer.BufWriter.FlushBuf | dkfs/src/file.rs:502-520 | Sends what is buffered; what a full device does not take stays in the buffer. |
| Buffer.BufWriter.Write | dkfs/src/file.rs:502-520 | Buffers the piece, after sending what is there if it does not fit, or passes a large piece on, so that the bytes get as far as `Take` says; it fails only on a full device, takes nothing then, and the bytes `Take` sends needed more blocks than were free. |
| Buffer.BufWriter.WriteAll | dkfs/src/file.rs:502-520 | Takes the whole piece, so that the bytes get as far as `Take` says; or a prefix on a full device, and then the bytes `Take` sends needed more blocks than were free. |
| Directory.DkDir.AddEntry | dkfs/src/file.rs:565-578 | Adds the entry, or keeps the one there and says so; the directory counts as changed either way. |
| Directory.DkDir.RemoveEntry | dkfs/src/file.rs:580-588 | Removes the entry and returns its number, or changes nothing. |
| Directory.ForcedTotal | dkfs/src/file.rs:502-520 | The bytes that have to leave the buffer before the end mark is taken are all of the stream but at most 8192. |
| Directory.NothingForced | dkfs/src/file.rs:502-520 | A stream that fits the buffer is held as a whole: no byte has to leave it. |
| Directory.DkDir.Serialize | dkfs/src/file.rs:502-520 | Puts the whole stream, each entry once and the end mark last, through the buffer, or stops on a full device, the bytes that had to leave the buffer having needed more blocks than were free. |
| Directory.DkDir.Flush | dkfs/src/file.rs:502-520 | Of a changed directory a prefix of its stream reaches the file, all of it exactly when the blocks it still needs are free. It fails exactly when the bytes that have to leave the buffer before the end mark is taken need more blocks than are free, which takes a stream longer than the buffer, and then the directory still counts as changed. When it succeeds the mark is cleared and at most a buffer full is missing. |
| Directory.FullStoresNothing | dkfs/src/file.rs:502-520 | On a full device a file without blocks keeps none of the bytes it is given, and its size, although blocks were missing. |
| Directory.FlushLosesEntry | dkfs/src/file.rs:502-520 | One new entry whose stream is at most 8192 bytes, a directory file without blocks, a full device: `flush` reports success, clears the mark, and nothing is stored. |
| Directory.FlushFailsFull | dkfs/src/file.rs:502-520 | A stream longer than 8192 bytes, a directory file without blocks, a full device: `flush` fails, the mark stays, and nothing is stored. |
| Directory.DkDir.ReadFully | dkfs/src/file.rs:522-547 | The entries, or the error, are those that `Parse` finds in the bytes from the file's position on; an empty file is an empty directory. |
| Directory.DkDir.ReadEntries | dkfs/src/file.rs:522-547 | The loop computes `Parse`, of which `Directory.StreamRoundTrip`, `Directory.CutStream` and `Directory.BadNumber` say what it accepts and rejects. |
| Directory.OpenDir | dkfs/src/lib.rs:413-430 | A fresh `DkDir` on the file with the entries, or the error, of the bytes from its position on. |
| Directory.OpenNewDir | dkfs/src/lib.rs:328-430 | A directory inode just made opens as a directory without entries; only a full inode table stops it. |
| Directory.OpenCutDir | dkfs/src/lib.rs:413-430 | A directory whose file ends within the stream of its entries, and is not empty, cannot be opened: it is an I/O error. |
| Directory.CloseAndReopenDir | dkfs/src/lib.rs:218-264 | Flush, close, open and read in sequence give the same entries whenever the whole stream was written, which is exactly when the blocks it still needed were free; for named attributes that fit a block the only other outcome is a full device, and with longer ones it always fails. When only a part was written over nothing, the directory opens only if that part is empty, and then without entries. |
| Links.CountAdd | dkfs/src/lib.rs:373-380 | A new entry raises the count of the inode it names by one and no other. |
| Links.CountRemove | dkfs/src/lib.rs:382-390 | A removed entry lowers the count of the inode it named by one and no other. |
| Tables.CloseFilesGood | dkfs/src/lib.rs:218-242 | `close_files_in_list` empties the list, keeps exactly the files that are held, and destroys an inode exactly when it has no link and its file is open and held by nobody. |
| Tables.CloseDirsGood | dkfs/src/lib.rs:244-264 | `close_dirs_in_list` empties the list, keeps exactly the directories with a handle, and changes no entry: what leaves memory is on disk. |
| Tables.ApplyReleasesGood | dkfs/src/ops.rs:63-67 | Afterwards nothing is pending, and every open file and directory has a handle behind it. |
| Tables.OpenGood | dkfs/src/lib.rs:392-411 | Opening a live inode succeeds with one more handle; entries and counts are the same, and a file just loaded is clean. |
| Tables.OpenDirGood | dkfs/src/lib.rs:413-430 | The same for directories, which take over the file handle they open. |
| Tables.DropFileGood | dkfs/src/file.rs:467-473 | Dropping a file handle keeps the invariant: what nobody holds is pending. |
| Tables.DropDirGood | dkfs/src/file.rs:591-597 | So does dropping a directory handle. |
| Tables.LinkGood | dkfs/src/lib.rs:373-380 | `link` adds exactly one entry and one count, or reports that the name is taken and changes neither. |
| Tables.UnlinkGood | dkfs/src/lib.rs:382-390 | `unlink` removes exactly the entry and one count of the inode it named, a count that was positive. |
| Tables.MknodGood | dkfs/src/lib.rs:328-356 | A new inode has no links, no entries, and is named by nobody. |
| Operations.LookupGood | dkfs/src/ops.rs:69-78 | `lookup` finds exactly the entries and reports count and kind of the inode named; on errors, too, handles, entries and counts are unchanged. |
| Operations.GetAttrGood | dkfs/src/ops.rs:37-57 | `getattr` reports the inode's count and kind and gives its handle back. |
| Operations.OpenDirAny | dkfs/src/lib.rs:413-430 | `open_dir` on any live inode yields a handle with exactly its entries, or `NotDirectory`. |
| Operations.MknodOpGood | dkfs/src/ops.rs:88-104 | One new inode with one entry and count 1; if the name is taken the entries are unchanged and the inode has none. |
| Operations.LinkInGood | dkfs/src/ops.rs:106-113 | One new entry and one more count, or `AlreadyExists` and neither. |
| Operations.MkdirGood | dkfs/src/lib.rs:361-371 | The new directory has exactly its dot entries, and its parent one more link. |
| Operations.MkdirOpGood | dkfs/src/ops.rs:190-205 | The new directory, its dot entries and its entry in the parent, with count 2; if the name is taken the directory stays behind unlinked and counts are exact all the same. |
| Operations.UnlinkOpGood | dkfs/src/ops.rs:258-264 | Removes exactly the entry, if there is one, and returns all handles. |
| Operations.TwoEntries | dkfs/src/ops.rs:290-302 | A directory has two entries exactly when it has its dot entries and nothing else. |
| Operations.RmdirGood | dkfs/src/ops.rs:290-302 | Removes a directory with nothing but its dot entries, these and its name; everything else is refused and left as it was, with the error that fits. |
| Operations.RenameGood | dkfs/src/ops.rs:266-288 | Between different names: the old entry goes, the new one names the inode, of the rest only a replaced target goes; a target directory that is not empty stops it. |
| Operations.RenameOntoItself | dkfs/src/ops.rs:276-286 | Renaming a name onto itself: a directory with entries stops it; otherwise, if the inode has another link or a handle, the call succeeds and the name is gone; if not, the call fails and the name stays behind, naming a destroyed inode. |
| Syncing.FlushFileKept | dkfs/src/file.rs:46-60 | Flushing an open file stores its link count, unless it is unlinked, and changes no entry, count or handle. |
| Syncing.FlushDirKept | dkfs/src/file.rs:502-520 | Flushing an open directory stores exactly its entries and changes no entry, count or handle. |
| Syncing.FsyncKept | dkfs/src/ops.rs:244-250 | After `fsync` without `datasync` the link count is on disk; with `datasync` nothing is written. The clone of the handle is pending and nothing else shows. |
| Syncing.FsyncDirKept | dkfs/src/ops.rs:252-256 | After `fsyncdir` the entries are on disk and, without `datasync`, the link count, with it no inode; nothing else shows. |
| Syncing.SetAttrKept | dkfs/src/ops.rs:120-168 | `setattr`, with a handle or without, keeps entries, counts and handles. |
| Kinds.RenameKinds | dkfs/src/ops.rs:266-302 | No part of a rename changes the kind of an inode or brings one into being. |
| Kinds.MkdirOpKinds | dkfs/src/ops.rs:193-205 | `mkdir` brings exactly one inode into being, a directory in the slot handed out, and changes no kind. |
| Histories.StepSettled | dkfs/src/ops.rs:16-330 | Every call that the kernel may make keeps the invariant, whether it succeeds or fails: lookups, links, directories, renames, opening and closing, reads and writes, `flush`, `fsync`, `fsyncdir`, and the calls on attributes. |
| Histories.HandleCallKept | dkfs/src/ops.rs:120-256 | Calls on handles and on attributes change no entry, no count and no handle. |
| Histories.HandleCallMarks | dkfs/src/ops.rs:120-256 | A call that changes contents or attributes leaves the file marked for writing, and each call on a handle leaves the inode on a pending list. |
| Histories.StepMirrors | dkfs/src/ops.rs:16-330 | What every call does to entries, inode kinds and handles is what `Trees.After` writes out for it with map updates. |
| Histories.LegalExactly | dkfs/src/ops.rs:16-330 | Which calls the kernel may make depends on that tree and on the slot handed out alone. |
| Histories.RunSettled | dkfs/src/ops.rs:16-330 | So does every sequence of calls. |
| Histories.RunMirrors | dkfs/src/ops.rs:16-330 | So the tree after a sequence of calls is the first tree with the calls written out one after the other. |
| Histories.FormattedSettled | dkfs/src/lib.rs:171-189 | After `create_root` there is the root directory, naming itself twice, and nothing is open. |
| Histories.FormattedMirrors | dkfs/src/lib.rs:171-189 | The tree of a new file system is directory 114514 with the entries `.` and `..`, both naming it. |
| Histories.HistoryMirrors | dkfs/src/ops.rs:16-330 | The tree of every history from formatting is the one that its calls, written out, make of a new one. |
| Histories.MadeAndRemoved | dkfs/src/ops.rs:76-264 | Making a file in the root of a new file system, in any other slot and under any name within the limit, and removing it again is legal; in between the root has that entry, and afterwards the tree is the first one. |
| Histories.CountsExact | dkfs/src/lib.rs:361-390 | Over every history from formatting the entries are those of the tree that the calls make, each inode's count is the number of these that name it, and nothing an entry names or a handle refers to has been destroyed. |
| Histories.ReleasesComplete | dkfs/src/ops.rs:63-67 | Over every history, a release leaves open exactly what has a handle, and an open inode is gone exactly if it had neither link nor handle. |
| Histories.FsyncDirStores | dkfs/src/ops.rs:252-256 | Over every history, after `fsyncdir` the disk has exactly the directory's entries and, unless nothing names it, exactly the number of entries that name it as its count. |
| Histories.FsyncStores | dkfs/src/ops.rs:119-122 | Over every history, after `flush` or `fsync` the disk has the exact count of a file that is named. |
| Histories.UnmountComplete | dkfs/src/lib.rs:456-472 | Unmounting without handles leaves on disk exactly the entries of the tree that the calls make, with exact counts and the right kinds. |
| Mounting.Mount.CloseFilesInList | dkfs/src/lib.rs:218-242 | Empties the list, keeps exactly the held files and destroys exactly the unlinked ones it drops; the invariant is kept. |
| Mounting.Mount.CloseDirsInList | dkfs/src/lib.rs:244-264 | Empties the list, keeps exactly the directories with a handle and changes no entry; the invariant is kept. |
| Mounting.Mount.ApplyPending | dkfs/src/ops.rs:63-67 | From a valid mount to a valid mount with nothing pending: exactly what has a handle stays open, and exactly the open inodes without link and handle are gone. |
| Mounting.Mount.OpenFile | dkfs/src/lib.rs:392-411 | A live inode opens with one more handle on it and no other; entries, counts and directory handles are as before, and the mount stays valid. |
| Mounting.Mount.OpenDirectory | dkfs/src/lib.rs:413-430 | A live directory gets one more directory handle on exactly its entries; anything else is refused with `NotDirectory` and no handle more; the mount stays valid. |
| Mounting.Mount.AddLink | dkfs/src/lib.rs:373-380 | One entry and one count more, both for the inode linked, or `AlreadyExists` and neither; the parent has one handle less and the mount stays valid. |
| Mounting.Mount.RemoveLink | dkfs/src/lib.rs:382-390 | Exactly the entry goes, with one count of the inode it named, which was positive; a missing name changes nothing; the mount stays valid. |
| Mounting.Mount.MakeNode | dkfs/src/lib.rs:328-356 | The new inode has no link and no entry and is named by nobody; all entries and handles are as before and the mount stays valid. |
| Mounting.Mount.MakeDir | dkfs/src/lib.rs:361-371 | The new directory has exactly its dot entries and its parent one more link; the mount stays valid. |
| Mounting.Mount.LookUp | dkfs/src/ops.rs:69-78 | Reports number, count and kind of exactly the inode the entry names, or the error that fits; entries, counts and handles are as before and the mount stays valid. |
| Mounting.Mount.Mknod | dkfs/src/ops.rs:88-104 | One inode with one entry and count 1, or an unlinked one when the name is taken; handles return to what they were and the mount stays valid. |
| Mounting.Mount.Mkdir | dkfs/src/ops.rs:190-205 | The directory with its dot entries and its entry in the parent, count 2; or, if the name is taken, left behind unlinked; handles return and the mount stays valid. |
| Mounting.Mount.Link | dkfs/src/ops.rs:106-113 | A name within the limit gets one entry and one count, or is taken and gets neither; a longer one changes nothing. The attributes are those after the call; handles return and the mount stays valid. |
| Mounting.Mount.Unlink | dkfs/src/ops.rs:258-264 | Exactly the entry goes, if there is one; handles return and the mount stays valid. |
| Mounting.Mount.Rmdir | dkfs/src/ops.rs:290-302 | A directory with nothing but its dot entries goes with them and its name; in every other case the fitting error and the same entries; handles return and the mount stays valid. |
| Mounting.Mount.Rename | dkfs/src/ops.rs:266-288 | Between different names the old entry goes, the new one names the inode, and of the rest only a replaced target goes; a target with entries stops it; the mount stays valid. |
| Mounting.Mount.Flush | dkfs/src/ops.rs:119-122 | The link count is on disk afterwards, entries, counts and handles are as before and the mount stays valid. |
| Mounting.Mount.Fsync | dkfs/src/ops.rs:244-250 | The same without `datasync`; with it no inode on disk and no file in memory changes. |
| Mounting.Mount.FsyncDir | dkfs/src/ops.rs:252-256 | The directory's entries are on disk afterwards, as they are in memory, and without `datasync` its link count, with it no inode; nothing else shows and the mount stays valid. |
| Volumes.TableChanges | dkfs/src/lib.rs:218-264 | The steps of the tables that touch the directories on disk are such changes: a directory's flush, a new inode, a destroyed one; flushing a file is none. |
| Volumes.ChangeShown | dkfs/src/file.rs:502-547 | Every change of the disk keeps tables and device together: reading each directory back gives the entries that the tables have on disk for it. |
| Volumes.RunShown | dkfs/src/file.rs:502-547 | So does every run of changes. |
| Volumes.TreeReadBack | dkfs/src/lib.rs:456-472 | A history unmounted without handles, and a device whose changes add up to the disk of the tables: reading every directory of the device back gives, all together, exactly the entries of the tree that the calls make. |
| Volumes.OpenShown | dkfs/src/lib.rs:413-430 | Opening a directory of such a device succeeds with exactly those entries. |

## Left out

- DonkeyFs.Donkey.Format: needs a geometry that leaves at least one inode and one data block and a device below 2^64 bytes; `create_root` is in `Histories.Formatted`.
- DonkeyFs.Donkey.ReadInode: the number must be at least `ROOT_INODE`; below it the source subtracts past zero.
- DkFiles.MakeNode: what the slot reads back is stated for arguments that fit the 16-, 32- and 64-bit types that the source's parameters have.
- DkFiles.DkFile.FreeFileDb: needs a clean cache, because the code reads the disk; `BlockMap.DiskShowsMap` says exactly when the disk is right, and `Walk` what the walk frees when it is not.
- DkFiles.DkFile.UpdateSize: shrinking needs a clean cache.
- DkFiles.DkFile.ReleaseBlocks: needs a clean cache, as `DkFiles.DkFile.Destroy` does.
- DkFiles.DkFile.Destroy: needs a clean cache, which an unlinked file that was written and never flushed does not have; what is freed then is stated on the disk alone, by `Walk.HungLeaks` and `Walk.StaleRootFrees`, not by this method.
- DkFiles.DkFile.LocateAlloc: the block index must be below the limit of the five levels; past it the source reaches its `unreachable!` arm.
- DkFiles.DkFile.Write: the end of the write must be reachable by the five levels.
- DkFiles.DkFile.Read: the least of requested end and file size must be reachable by the five levels; a `setattr` can put the size past them, and a read there reaches the `unreachable!` arm.
- DkFiles.DkFile.DkRead: the position, if below the size, must be reachable by the five levels.
- DkFiles.DkFile.WriteXattr: an attribute is an 8-byte length and its bytes, name and value alike; the tag that serde puts before a name is not modelled. After a stream longer than the block the device is described byte by byte, and no invariant of it is claimed.
- DkFiles.DkFile.Flush: after attributes longer than a block only the bytes of their stream are described.
- DkFiles.Reopen: the inode's fields must fit their machine types, in particular the counter `blocks`, which freed xattr blocks only ever raise.
- DkFiles.CloseAndReopen: is the flush in `close_files_in_list` followed by `open`; which files that loop closes is the subject of `Tables`, which has no file contents.
- Directory.DkDir.ReadFully: parses from the file's position; that it is 0 when a directory is opened rests on directories being opened with `opendir` only, as in `Histories.Legal`. The buffer in front of the reads is not modelled.
- Directory.DkDir.Flush: an entry is an 8-byte number, an 8-byte length and the name's bytes; the tag that serde puts before an `OsString` is not modelled.
- Directory.CloseAndReopenDir: needs room for 64-bit size and counter, and attributes that have names or fit one block.
- Walk.HungLeaks: speaks of a walk that leaves the disk as it is; the headers that the code writes on the way, and its stop at a pointer past the device, are not part of `Walk.Frees`.
- Tables.OpenGood: file contents and attributes are left to the other modules; a slot that holds no inode reads as corrupted.
- Histories.CountsExact: flushing does not fail or lose anything in these histories; a full device while a directory is flushed is modelled in `Directory.DkDir.Flush` only. `symlink` is `CallMknod`, an open, writes, a close and `CallGetAttr` (dkfs/src/ops.rs:304-330); `statfs` changes nothing and is not among the calls.
- Syncing.FsyncDirKept: without `datasync` the source borrows `Handle.inner` mutably a second time while `dk` still borrows it (dkfs/src/ops.rs:253-255); such run-time borrow errors are not modelled, here and elsewhere.
- Volumes.TreeReadBack: relates a history to a device through the changes of its disk, each with what the contracts of `DkFile` and `DkDir` promise; it does not run the calls on the device byte by byte.
- Histories.StepSettled: calls are those the kernel makes (`Histories.Legal`): dot names are not given, changed directories still have their dot entries, a rename is not onto itself (`Operations.RenameOntoItself` says what that does).
- `mtdk` and `mkdk`: thin adapters and command line.
- Real devices, their size detection and host I/O errors: the device is an array of bytes with the range checks of `write_at` and `read_len_at`.
- Timestamps, owners, mode bits other than the directory bit, `statfs`, and the plain field copies of `getattr` and `setattr`: single assignments.
- `readdir` with an offset: it skips twice, so a resumed listing has no clean specification.
- Threads: the crate is single-threaded.
