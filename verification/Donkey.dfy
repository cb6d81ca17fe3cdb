/** The `Donkey` object: the device, the superblock and the two free-list allocators (lib.rs, device.rs). */
module DonkeyFs {
  import opened Arith
  import opened Codec
  import opened Regions
  import opened Areas
  import opened Layout
  import opened Results

  /** The device holds inode slots and data blocks as `slots` and `blocks` say. */
  ghost predicate LayoutOk(dev: seq<Byte>, sb: SuperBlock, table: Area, data: Area,
                           slots: seq<seq<Byte>>, blocks: seq<seq<Byte>>) {
    && AreaOk(table, |dev|) && AreaOk(data, |dev|)
    && table == InodeTable(sb.inodeCount)
    && End(table) <= data.base
    && data.unit == sb.blockSize < WORD_LIMIT && data.count == sb.dbCount && BlockSizeOk(sb.blockSize)
    && slots == View(dev, table) && blocks == View(dev, data)
  }

  /** The superblock on disk is the one in memory. */
  ghost predicate SuperOk(dev: seq<Byte>, sb: SuperBlock) {
    && FIRST_INODE_PTR <= |dev|
    && dev[SUPER_BLOCK_PTR..SUPER_BLOCK_PTR + SUPER_BLOCK_BYTES] == SuperBlockBytes(sb)
  }

  /** The system invariant: superblock on disk, both views and both free lists agree. */
  ghost predicate SystemOk(dev: seq<Byte>, sb: SuperBlock, table: Area, data: Area,
                           slots: seq<seq<Byte>>, blocks: seq<seq<Byte>>,
                           freeSlots: seq<Region>, freeBlocks: seq<Region>) {
    && LayoutOk(dev, sb, table, data, slots, blocks)
    && SuperOk(dev, sb)
    && ListOk(table, slots, sb.inodeHead, freeSlots, sb.usedInodes)
    && ListOk(data, blocks, sb.dbHead, freeBlocks, sb.usedDbs)
  }

  function WithSuper(dev: seq<Byte>, sb: SuperBlock): (e: seq<Byte>)
    requires SUPER_BLOCK_PTR + SUPER_BLOCK_BYTES <= |dev|
    ensures |e| == |dev|
  {
    Splice(dev, SUPER_BLOCK_PTR, SuperBlockBytes(sb))
  }

  class Donkey {
    /** The device contents. */
    var dev: seq<Byte>
    var sb: SuperBlock

    ghost const table: Area
    ghost const data: Area
    /** The device seen as inode slots and data blocks. */
    ghost var slots: seq<seq<Byte>>
    ghost var blocks: seq<seq<Byte>>
    /** The two free lists. */
    ghost var freeSlots: seq<Region>
    ghost var freeBlocks: seq<Region>

    ghost predicate Valid()
      reads this
    {
      SystemOk(dev, sb, table, data, slots, blocks, freeSlots, freeBlocks)
    }

    /** `format`, up to the creation of the root directory. */
    constructor Format(disk: seq<Byte>, blockSize: nat, blockCount: nat, bytesPerInode: nat)
      requires BlockSizeOk(blockSize) && |disk| == blockSize * blockCount < WORD_LIMIT
      requires bytesPerInode > 0 && |disk| / bytesPerInode > 0
      requires UsedBlocks(blockSize, |disk| / bytesPerInode) < blockCount
      ensures Valid()
      ensures table == Area(2048, 256, |disk| / bytesPerInode)
      ensures data == DataArea(blockSize, |disk| / bytesPerInode, blockCount)
      ensures freeSlots == [Region(0, table.count)] && freeBlocks == [Region(0, data.count)]
    {
      hide SystemOk, SuperBlockBytes, Splice, Header, UsedBlocks, Times, View;
      var inodeCount := |disk| / bytesPerInode;
      var firstDb := UsedBlocks(blockSize, inodeCount) * blockSize;
      LayoutFits(blockSize, inodeCount, blockCount);
      FormatSizes(blockSize, inodeCount, blockCount);
      ghost var t, a := InodeTable(inodeCount), DataArea(blockSize, inodeCount, blockCount);
      var super := SuperBlock(blockSize, inodeCount, 0, blockCount - firstDb / blockSize, 0, FIRST_INODE_PTR, firstDb);
      FormatOk(disk, super, t, a);
      var d1 := Splice(disk, SUPER_BLOCK_PTR, SuperBlockBytes(super));
      var d2 := Splice(d1, FIRST_INODE_PTR, Header(0, inodeCount * INODE_SIZE));
      var d3 := Splice(d2, firstDb, Header(0, |disk| - firstDb));
      dev, sb := d3, super;
      table, data := t, a;
      slots, blocks := View(d3, t), View(d3, a);
      freeSlots, freeBlocks := [Region(0, inodeCount)], [Region(0, a.count)];
    }

    /** `Donkey::new`. */
    constructor New(dev: seq<Byte>, sb: SuperBlock, ghost table: Area, ghost data: Area, ghost slots: seq<seq<Byte>>,
                    ghost blocks: seq<seq<Byte>>, ghost freeSlots: seq<Region>, ghost freeBlocks: seq<Region>)
      ensures this.dev == dev && this.sb == sb && this.table == table && this.data == data
      ensures this.slots == slots && this.blocks == blocks
      ensures this.freeSlots == freeSlots && this.freeBlocks == freeBlocks
    {
      this.dev, this.sb, this.table, this.data := dev, sb, table, data;
      this.slots, this.blocks, this.freeSlots, this.freeBlocks := slots, blocks, freeSlots, freeBlocks;
    }

    // ----- Device -----

    /** `Device::write_at`. */
    method WriteAt(ptr: nat, bytes: seq<Byte>) returns (r: DkResult<()>)
      modifies this`dev
      ensures ptr + |bytes| <= |old(dev)| ==> r == Ok(()) && dev == Splice(old(dev), ptr, bytes)
      ensures ptr + |bytes| > |old(dev)| ==> r == Err(Corrupted) && dev == old(dev)
    {
      if ptr + |bytes| > |dev| {
        return Err(Corrupted);
      }
      dev := Splice(dev, ptr, bytes);
      return Ok(());
    }

    /** `Device::read_len_at`. */
    method ReadLenAt(ptr: nat, len: nat) returns (r: DkResult<seq<Byte>>)
      ensures r == if ptr + len <= |dev| then Ok(dev[ptr..ptr + len]) else Err(Corrupted)
    {
      if ptr + len > |dev| {
        return Err(Corrupted);
      }
      return Ok(dev[ptr..ptr + len]);
    }

    // ----- Allocation -----

    /**
     `allocate_from_free` with its recursion: the first region that fits is carved, and the regions
     before it are not on the list whose head is returned.
     */
    method AllocateFromFree(ptr: nat, size: nat, ghost a: Area, ghost rs: seq<Region>, ghost k: nat)
      returns (r: DkResult<(nat, nat)>)
      requires AreaOk(a, |dev|) && RegionsOk(rs, a.count) && Chained(a, View(dev, a), rs)
      requires ptr == HeadPtr(a, rs) && size == Times(k, a.unit) && k > 0 && HasFit(rs, k)
      modifies this`dev
      ensures |dev| == |old(dev)|
      ensures SameOutside(old(dev), dev, a)
      ensures UnitsSized(a, old(View(dev, a)))
      ensures View(dev, a) == CarveView(a, old(View(dev, a)), rs, k)
      ensures r == Ok((Ptr(a, FirstFit(rs, k).first), HeadPtr(a, Carve(rs, k))))
      decreases |rs|
    {
      hide View, Splice, FromWords, Words;
      ghost var region := rs[0];
      HeadHeader(dev, a, rs);
      var bytes :- ReadLenAt(ptr, FREE_LIST_SIZE);
      var next, flSize := Words(bytes)[0], Words(bytes)[1];
      RemainderFits(region.count, k, a.unit);
      if flSize >= size {
        var newPtr := next;
        if flSize - size >= FREE_LIST_SIZE {
          newPtr := ptr + size;
          SplitPoint(a, region.first, k);
          SpliceUnit(dev, a, region.first + k, 0, Header(next, flSize - size));
          var _ :- WriteAt(newPtr, Header(next, flSize - size));
        }
        r := Ok((ptr, newPtr));
      } else {
        r := AllocateFromFree(next, size, a, rs[1..], k);
      }
    }

    /** `flush_sb`. */
    method FlushSb() returns (r: DkResult<()>)
      requires SUPER_BLOCK_PTR + SUPER_BLOCK_BYTES <= |dev|
      modifies this`dev
      ensures r == Ok(()) && dev == WithSuper(old(dev), sb)
    {
      r := WriteAt(SUPER_BLOCK_PTR, SuperBlockBytes(sb));
    }

    /** `allocate_db`: fails only when every block is in use, and otherwise hands out the head block. */
    method AllocateDb() returns (r: DkResult<nat>)
      requires Valid()
      modifies this`dev, this`sb, this`blocks, this`freeBlocks
      ensures Valid()
      ensures r.Err? <==> old(sb.usedDbs) == data.count
      ensures r.Err? ==> r.error == Exhausted && dev == old(dev) && sb == old(sb)
      ensures r.Err? ==> blocks == old(blocks) && freeBlocks == old(freeBlocks)
      ensures r.Ok? ==> old(freeBlocks) != [] && freeBlocks == Carve(old(freeBlocks), 1)
      ensures r.Ok? ==>
        var n := old(freeBlocks)[0].first;
        && r.value == Ptr(data, n) && Alloced(data, old(blocks), old(freeBlocks), blocks, freeBlocks, n)
        && sb == old(sb).(usedDbs := old(sb).usedDbs + 1, dbHead := sb.dbHead)
    {
      hide ListOk, SuperOk, View, CarveView, Splice, SuperBlockBytes, UnitsSized, Alloced;
      if sb.usedDbs < sb.dbCount {
        ghost var before := dev;
        AllocReady(data, blocks, sb.dbHead, freeBlocks, sb.usedDbs);
        var pair :- AllocateFromFree(sb.dbHead, sb.blockSize, data, freeBlocks, 1);
        DataCarved(before, dev, sb, table, data, slots, blocks, freeSlots, freeBlocks);
        sb := sb.(dbHead := pair.1);
        sb := sb.(usedDbs := sb.usedDbs + 1);
        blocks, freeBlocks := View(dev, data), Carve(freeBlocks, 1);
        var _ :- FlushSb();
        return Ok(pair.0);
      } else {
        AllInUse(data, blocks, sb.dbHead, freeBlocks, sb.usedDbs);
        return Err(Exhausted);
      }
    }

    /** `free_db`: the block becomes the head of the list. */
    method FreeDb(ptr: nat, ghost n: nat) returns (r: DkResult<()>)
      requires Valid() && n < data.count && n !in Units(freeBlocks) && ptr == Ptr(data, n)
      modifies this`dev, this`sb, this`blocks, this`freeBlocks
      ensures Valid()
      ensures r == Ok(())
      ensures freeBlocks == Give(n, old(freeBlocks)) && Units(freeBlocks) == Units(old(freeBlocks)) + {n}
      ensures old(sb).usedDbs > 0
      ensures sb == old(sb).(usedDbs := old(sb).usedDbs - 1, dbHead := ptr)
      ensures forall m :: 0 <= m < data.count && m != n ==> blocks[m] == old(blocks)[m]
    {
      hide LayoutOk, SuperOk, ListOk, Splice, Ptr, SuperBlockBytes, Header, WithSuper;
      var header := Header(sb.dbHead, sb.blockSize);
      DataGiven(dev, sb, table, data, slots, blocks, freeSlots, freeBlocks, n);
      sb := sb.(dbHead := ptr);
      var _ :- WriteAt(ptr, header);
      sb := sb.(usedDbs := sb.usedDbs - 1);
      blocks, freeBlocks := blocks[n := Splice(blocks[n], 0, header)], Give(n, freeBlocks);
      r := FlushSb();
    }

    /** `allocate_inode`: returns the number of the head slot. */
    method AllocateInode() returns (r: DkResult<nat>)
      requires Valid()
      modifies this`dev, this`sb, this`slots, this`freeSlots
      ensures Valid()
      ensures r.Err? <==> old(sb.usedInodes) == table.count
      ensures r.Err? ==> r.error == Exhausted && dev == old(dev) && sb == old(sb)
      ensures r.Err? ==> slots == old(slots) && freeSlots == old(freeSlots)
      ensures r.Ok? ==> old(freeSlots) != [] && freeSlots == Carve(old(freeSlots), 1)
      ensures r.Ok? ==>
        var n := old(freeSlots)[0].first;
        && r.value == ROOT_INODE + n && Alloced(table, old(slots), old(freeSlots), slots, freeSlots, n)
        && sb == old(sb).(usedInodes := old(sb).usedInodes + 1, inodeHead := sb.inodeHead)
    {
      hide ListOk, SuperOk, View, CarveView, Splice, SuperBlockBytes, UnitsSized, Alloced;
      if sb.usedInodes < sb.inodeCount {
        ghost var before := dev;
        AllocReady(table, slots, sb.inodeHead, freeSlots, sb.usedInodes);
        SlotNumbers(freeSlots[0].first);
        var pair :- AllocateFromFree(sb.inodeHead, INODE_SIZE, table, freeSlots, 1);
        TableCarved(before, dev, sb, table, data, slots, blocks, freeSlots, freeBlocks);
        sb := sb.(inodeHead := pair.1);
        sb := sb.(usedInodes := sb.usedInodes + 1);
        slots, freeSlots := View(dev, table), Carve(freeSlots, 1);
        var _ :- FlushSb();
        return Ok(InodeNumber(pair.0));
      } else {
        AllInUse(table, slots, sb.inodeHead, freeSlots, sb.usedInodes);
        return Err(Exhausted);
      }
    }

    /** `free_inode`. */
    method FreeInode(ino: nat) returns (r: DkResult<()>)
      requires Valid() && ROOT_INODE <= ino < ROOT_INODE + table.count && ino - ROOT_INODE !in Units(freeSlots)
      modifies this`dev, this`sb, this`slots, this`freeSlots
      ensures Valid()
      ensures r == Ok(())
      ensures freeSlots == Give(ino - ROOT_INODE, old(freeSlots))
      ensures Units(freeSlots) == Units(old(freeSlots)) + {ino - ROOT_INODE}
      ensures old(sb).usedInodes > 0
      ensures sb == old(sb).(usedInodes := old(sb).usedInodes - 1, inodeHead := InodePtr(ino))
      ensures forall m :: 0 <= m < table.count && m != ino - ROOT_INODE ==> slots[m] == old(slots)[m]
    {
      hide LayoutOk, SuperOk, ListOk, Splice, Ptr, SuperBlockBytes, Header, WithSuper, InodePtr;
      ghost var n := ino - ROOT_INODE;
      var header := Header(sb.inodeHead, INODE_SIZE);
      var ptr := InodePtr(ino);
      SlotNumbers(n);
      TableGiven(dev, sb, table, data, slots, blocks, freeSlots, freeBlocks, n);
      sb := sb.(inodeHead := ptr);
      var _ :- WriteAt(ptr, header);
      sb := sb.(usedInodes := sb.usedInodes - 1);
      slots, freeSlots := slots[n := Splice(slots[n], 0, header)], Give(n, freeSlots);
      r := FlushSb();
    }

    // ----- Block and slot access -----

    /** `Donkey::write` of bytes inside an allocated block. */
    method WriteBlock(ptr: nat, bytes: seq<Byte>, ghost n: nat, ghost off: nat) returns (r: DkResult<()>)
      requires Valid() && n < data.count && n !in Units(freeBlocks)
      requires ptr == Ptr(data, n) + off && off + |bytes| <= data.unit
      modifies this`dev, this`blocks
      ensures Valid() && r == Ok(())
      ensures blocks == old(blocks)[n := Splice(old(blocks)[n], off, bytes)]
    {
      hide LayoutOk, SuperOk, Splice, Ptr, Chained;
      DataWrite(dev, sb, table, data, slots, blocks, n, off, bytes);
      ChainedFrame(data, blocks, blocks[n := Splice(blocks[n], off, bytes)], freeBlocks, data.count);
      r := WriteAt(ptr, bytes);
      blocks := blocks[n := Splice(blocks[n], off, bytes)];
    }

    /** `Donkey::read_into` and, for a whole block, `read_block`. */
    method ReadBlock(ptr: nat, len: nat, ghost n: nat, ghost off: nat) returns (r: DkResult<seq<Byte>>)
      requires Valid() && n < data.count && ptr == Ptr(data, n) + off && off + len <= data.unit
      ensures r == Ok(blocks[n][off..off + len])
    {
      hide LayoutOk, SuperOk, ListOk;
      ReadUnit(dev, sb, table, data, slots, blocks, n, off, len);
      r := ReadLenAt(ptr, len);
    }

    /** `write_inode`; on a valid device the inode goes into its own slot. */
    method WriteInode(inode: Inode) returns (r: DkResult<()>)
      requires InodeShaped(inode) && ROOT_INODE <= inode.ino < ROOT_INODE + table.count
      modifies this`dev, this`slots
      ensures InodePtr(inode.ino) + INODE_BYTES <= |old(dev)| ==>
        r == Ok(()) && dev == Splice(old(dev), InodePtr(inode.ino), InodeBytes(inode))
      ensures InodePtr(inode.ino) + INODE_BYTES > |old(dev)| ==> r == Err(Corrupted) && dev == old(dev)
      ensures old(Valid()) && inode.ino - ROOT_INODE !in Units(freeSlots) ==>
        Valid() && r == Ok(()) && slots == WithInode(old(slots), inode)
    {
      hide SystemOk, InodeBytes, Splice, InodePtr, Units;
      if Valid() && inode.ino - ROOT_INODE !in Units(freeSlots) {
        InodeWritten(dev, sb, table, data, slots, blocks, freeSlots, freeBlocks, inode);
        slots := WithInode(slots, inode);
      }
      r := WriteAt(InodePtr(inode.ino), InodeBytes(inode));
    }

    /** `read_inode` with its validation; on a valid device it reads the inode's slot. */
    method ReadInode(ino: nat) returns (r: DkResult<Inode>)
      requires ino >= ROOT_INODE
      ensures InodePtr(ino) + INODE_SIZE > |dev| ==> r == Err(Corrupted)
      ensures InodePtr(ino) + INODE_SIZE <= |dev| ==>
        var i := InodeIn(dev[InodePtr(ino)..InodePtr(ino) + INODE_SIZE]);
        r == if i.ino < ROOT_INODE then Err(Corrupted) else Ok(i)
      ensures Valid() && ROOT_INODE <= ino < ROOT_INODE + table.count ==>
        var i := InodeIn(slots[ino - ROOT_INODE]); r == if i.ino < ROOT_INODE then Err(Corrupted) else Ok(i)
    {
      hide LayoutOk, SuperOk, ListOk, InodeIn, InodePtr;
      if Valid() && ROOT_INODE <= ino < ROOT_INODE + table.count {
        ReadSlot(dev, sb, table, data, slots, blocks, ino - ROOT_INODE);
      }
      var bytes :- ReadLenAt(InodePtr(ino), INODE_SIZE);
      var i := InodeIn(bytes);
      return if i.ino < ROOT_INODE then Err(Corrupted) else Ok(i);
    }
  }

  /**
   `open`: the superblock is read from its place and checked. The device that a valid `Donkey` has left opens as a valid
   `Donkey` with the same superblock and the same free lists.
   */
  method Open(disk: seq<Byte>, ghost was: Donkey) returns (r: DkResult<Donkey>)
    ensures |disk| < 1024 ==> r == Err(Corrupted)
    ensures |disk| >= 1024 ==>
      match SuperBlockIn(disk[1024..])
      case Ok(sb) => r.Ok? && fresh(r.value) && r.value.dev == disk && r.value.sb == sb
      case Err(e) => r == Err(e)
    ensures was.Valid() && was.dev == disk ==>
      && r.Ok? && r.value.Valid() && r.value.sb == was.sb && r.value.table == was.table && r.value.data == was.data
      && r.value.slots == was.slots && r.value.blocks == was.blocks
      && r.value.freeSlots == was.freeSlots && r.value.freeBlocks == was.freeBlocks
  {
    hide LayoutOk, SuperOk, ListOk, SuperBlockIn;
    if was.Valid() && was.dev == disk {
      SuperReadBack(disk, was.sb, was.table, was.data, was.slots, was.blocks, was.freeSlots, was.freeBlocks);
    }
    if SUPER_BLOCK_PTR > |disk| {
      return Err(Corrupted);
    }
    var sb :- SuperBlockIn(disk[SUPER_BLOCK_PTR..]);
    var dk := new Donkey.New(disk, sb, was.table, was.data, was.slots, was.blocks, was.freeSlots, was.freeBlocks);
    return Ok(dk);
  }

  /** Every field of the superblock fits its 64 bits, so it is read back from the device. */
  lemma SuperReadBack(dev: seq<Byte>, sb: SuperBlock, table: Area, data: Area, slots: seq<seq<Byte>>,
                      blocks: seq<seq<Byte>>, freeSlots: seq<Region>, freeBlocks: seq<Region>)
    requires SystemOk(dev, sb, table, data, slots, blocks, freeSlots, freeBlocks)
    ensures FIRST_INODE_PTR <= |dev| && SuperFits(sb) && SuperBlockIn(dev[SUPER_BLOCK_PTR..]) == Ok(sb)
  {
    hide SuperBlockIn, SuperBlockBytes, View, Chained, RegionsOk, Times;
    ListSmall(table, |dev|, slots, sb.inodeHead, freeSlots, sb.usedInodes);
    ListSmall(data, |dev|, blocks, sb.dbHead, freeBlocks, sb.usedDbs);
    var bytes, tail := SuperBlockBytes(sb), dev[SUPER_BLOCK_PTR + SUPER_BLOCK_BYTES..];
    assert dev[SUPER_BLOCK_PTR..] == bytes + tail;
    SuperRoundTrip(sb, tail);
  }

  lemma ListSmall(a: Area, size: nat, v: seq<seq<Byte>>, head: nat, rs: seq<Region>, used: nat)
    requires AreaOk(a, size) && ListOk(a, v, head, rs, used)
    ensures used <= a.count < WORD_LIMIT && head < WORD_LIMIT
  {
    hide UnitsSized, Chained;
    TimesMore(a.count, a.unit);
    if rs != [] {
      PtrInside(a, rs[0].first, size);
    }
  }

  /** A write inside data block `n` is an update of that block. */
  lemma DataWrite(dev: seq<Byte>, sb: SuperBlock, table: Area, data: Area,
                  slots: seq<seq<Byte>>, blocks: seq<seq<Byte>>, n: nat, off: nat, bytes: seq<Byte>)
    requires LayoutOk(dev, sb, table, data, slots, blocks) && SuperOk(dev, sb)
    requires n < data.count && off + |bytes| <= data.unit
    ensures Ptr(data, n) + off + |bytes| <= |dev|
    ensures |blocks[n]| == data.unit
    ensures var e := Splice(dev, Ptr(data, n) + off, bytes);
      LayoutOk(e, sb, table, data, slots, blocks[n := Splice(blocks[n], off, bytes)]) && SuperOk(e, sb)
  {
    var p := Ptr(data, n) + off;
    SpliceUnit(dev, data, n, off, bytes);
    SpliceOutside(dev, table, p, bytes);
    SuperKept(dev, Splice(dev, p, bytes), sb);
  }

  /** A write at the front of inode slot `n` is an update of that slot. */
  lemma TableWrite(dev: seq<Byte>, sb: SuperBlock, table: Area, data: Area,
                   slots: seq<seq<Byte>>, blocks: seq<seq<Byte>>, n: nat, bytes: seq<Byte>)
    requires LayoutOk(dev, sb, table, data, slots, blocks) && SuperOk(dev, sb)
    requires n < table.count && |bytes| <= table.unit
    ensures Ptr(table, n) + |bytes| <= |dev|
    ensures |slots[n]| == table.unit
    ensures var e := Splice(dev, Ptr(table, n), bytes);
      LayoutOk(e, sb, table, data, slots[n := Splice(slots[n], 0, bytes)], blocks) && SuperOk(e, sb)
  {
    var p := Ptr(table, n);
    PtrInside(table, n, |dev|);
    SpliceUnit(dev, table, n, 0, bytes);
    SpliceOutside(dev, data, p, bytes);
    SuperKept(dev, Splice(dev, p, bytes), sb);
  }

  /** The inode table with `inode` in its slot. */
  function WithInode(slots: seq<seq<Byte>>, inode: Inode): (r: seq<seq<Byte>>)
    requires InodeShaped(inode) && ROOT_INODE <= inode.ino < ROOT_INODE + |slots|
    requires |slots[inode.ino - ROOT_INODE]| == INODE_SIZE
    ensures |r| == |slots|
  {
    var n := inode.ino - ROOT_INODE;
    slots[n := Splice(slots[n], 0, InodeBytes(inode))]
  }

  lemma InodeWritten(dev: seq<Byte>, sb: SuperBlock, table: Area, data: Area, slots: seq<seq<Byte>>,
                     blocks: seq<seq<Byte>>, freeSlots: seq<Region>, freeBlocks: seq<Region>, inode: Inode)
    requires SystemOk(dev, sb, table, data, slots, blocks, freeSlots, freeBlocks) && InodeShaped(inode)
    requires ROOT_INODE <= inode.ino < ROOT_INODE + table.count && inode.ino - ROOT_INODE !in Units(freeSlots)
    ensures |slots| == table.count && |slots[inode.ino - ROOT_INODE]| == INODE_SIZE
    ensures InodePtr(inode.ino) + INODE_BYTES <= |dev|
    ensures SystemOk(Splice(dev, InodePtr(inode.ino), InodeBytes(inode)), sb, table, data,
                     WithInode(slots, inode), blocks, freeSlots, freeBlocks)
  {
    hide LayoutOk, SuperOk, InodeBytes, InodePtr, View, Splice, ListOk, Units;
    var n := inode.ino - ROOT_INODE;
    TableSized(dev, sb, table, data, slots, blocks);
    ReadSlot(dev, sb, table, data, slots, blocks, n);
    TableWrite(dev, sb, table, data, slots, blocks, n, InodeBytes(inode));
    ListWith(table, slots, sb.inodeHead, freeSlots, sb.usedInodes, n, Splice(slots[n], 0, InodeBytes(inode)));
  }

  lemma TableSized(dev: seq<Byte>, sb: SuperBlock, table: Area, data: Area, slots: seq<seq<Byte>>,
                   blocks: seq<seq<Byte>>)
    requires LayoutOk(dev, sb, table, data, slots, blocks)
    ensures |slots| == table.count && table.unit == INODE_SIZE
  {
  }

  /** Contents of a unit in use do not matter to the free list. */
  lemma ListWith(a: Area, v: seq<seq<Byte>>, head: nat, rs: seq<Region>, used: nat, n: nat, unit: seq<Byte>)
    requires ListOk(a, v, head, rs, used) && n !in Units(rs) && n < |v| == a.count && |unit| == a.unit
    ensures ListOk(a, v[n := unit], head, rs, used)
  {
    hide Chained, Units, RegionsOk;
    ChainedFrame(a, v, v[n := unit], rs, a.count);
  }

  lemma SuperWrite(dev: seq<Byte>, sb: SuperBlock, table: Area, data: Area,
                   slots: seq<seq<Byte>>, blocks: seq<seq<Byte>>)
    requires LayoutOk(dev, sb, table, data, slots, blocks)
    ensures FIRST_INODE_PTR <= |dev|
    ensures var e := WithSuper(dev, sb); LayoutOk(e, sb, table, data, slots, blocks) && SuperOk(e, sb)
  {
    var bytes := SuperBlockBytes(sb);
    SpliceOutside(dev, table, SUPER_BLOCK_PTR, bytes);
    SpliceOutside(dev, data, SUPER_BLOCK_PTR, bytes);
  }

  lemma ReadUnit(dev: seq<Byte>, sb: SuperBlock, table: Area, data: Area,
                 slots: seq<seq<Byte>>, blocks: seq<seq<Byte>>, n: nat, off: nat, len: nat)
    requires LayoutOk(dev, sb, table, data, slots, blocks) && n < data.count && off + len <= data.unit
    ensures Ptr(data, n) + off + len <= |dev| && |blocks[n]| == data.unit
    ensures dev[Ptr(data, n) + off..Ptr(data, n) + off + len] == blocks[n][off..off + len]
  {
    PtrInside(data, n, |dev|);
    var p := Ptr(data, n);
    assert blocks[n] == UnitAt(dev, data, n) == dev[p..p + data.unit];
    SubSlice(dev, p, data.unit, off, len);
  }

  lemma ReadSlot(dev: seq<Byte>, sb: SuperBlock, table: Area, data: Area,
                 slots: seq<seq<Byte>>, blocks: seq<seq<Byte>>, n: nat)
    requires LayoutOk(dev, sb, table, data, slots, blocks) && n < table.count
    ensures Ptr(table, n) + table.unit <= |dev| && |slots[n]| == table.unit == INODE_SIZE
    ensures Ptr(table, n) == InodePtr(ROOT_INODE + n)
    ensures dev[Ptr(table, n)..Ptr(table, n) + table.unit] == slots[n]
  {
    SlotNumbers(n);
    PtrInside(table, n, |dev|);
    assert slots[n] == UnitAt(dev, table, n);
  }

  /** The inode table lies before the data area. */
  lemma SlotBelow(dev: seq<Byte>, sb: SuperBlock, table: Area, data: Area,
                  slots: seq<seq<Byte>>, blocks: seq<seq<Byte>>, ino: nat)
    requires LayoutOk(dev, sb, table, data, slots, blocks) && ROOT_INODE <= ino < ROOT_INODE + table.count
    ensures InodePtr(ino) + INODE_SIZE <= data.base <= |dev|
  {
    hide Times;
    SlotNumbers(ino - ROOT_INODE);
    PtrInside(table, ino - ROOT_INODE, |dev|);
  }

  /** Slot `n` holds inode `ROOT_INODE + n`. */
  lemma SlotNumbers(n: nat)
    ensures forall count :: Ptr(InodeTable(count), n) == InodePtr(ROOT_INODE + n)
    ensures InodeNumber(InodePtr(ROOT_INODE + n)) == ROOT_INODE + n
  {
    TimesIsMul(n, INODE_SIZE);
  }

  /** The header read at the head of a chain. */
  lemma HeadHeader(dev: seq<Byte>, a: Area, rs: seq<Region>)
    requires AreaOk(a, |dev|) && RegionsOk(rs, a.count) && Chained(a, View(dev, a), rs) && rs != []
    ensures HeadPtr(a, rs) + FREE_LIST_SIZE <= |dev|
    ensures Words(dev[HeadPtr(a, rs)..HeadPtr(a, rs) + FREE_LIST_SIZE])
      == [HeadPtr(a, rs[1..]), Times(rs[0].count, a.unit)]
    ensures UnitsSized(a, View(dev, a))
  {
    hide Words, FromWords;
    var n := rs[0].first;
    PtrInside(a, n, |dev|);
    HeaderWords(a, |dev|, rs[1..], rs[0]);
    SubSlice(dev, Ptr(a, n), a.unit, 0, FREE_LIST_SIZE);
    assert View(dev, a)[n] == UnitAt(dev, a, n);
  }

  lemma AllocReady(a: Area, v: seq<seq<Byte>>, head: nat, rs: seq<Region>, used: nat)
    requires ListOk(a, v, head, rs, used) && used < a.count && a.unit >= FREE_LIST_SIZE
    ensures RegionsOk(rs, a.count) && Chained(a, v, rs) && head == HeadPtr(a, rs) && rs != []
    ensures HasFit(rs, 1) && FirstFit(rs, 1) == rs[0] && Times(1, a.unit) == a.unit
    ensures rs[0].first in Units(rs) && rs[0].first < a.count
    ensures Units(Carve(rs, 1)) == Units(rs) - {rs[0].first}
  {
    HeadFits(rs, a.count);
  }

  lemma AllInUse(a: Area, v: seq<seq<Byte>>, head: nat, rs: seq<Region>, used: nat)
    requires ListOk(a, v, head, rs, used) && used >= a.count
    ensures used == a.count
  {
  }

  /** The list after one unit is carved from its head region. */
  lemma CarvedList(a: Area, v: seq<seq<Byte>>, rs: seq<Region>, head: nat, used: nat)
    requires ListOk(a, v, head, rs, used) && used < a.count && a.unit >= FREE_LIST_SIZE
    ensures rs != [] && HasFit(rs, 1)
    ensures ListOk(a, CarveView(a, v, rs, 1), HeadPtr(a, Carve(rs, 1)), Carve(rs, 1), used + 1)
    ensures Alloced(a, v, rs, CarveView(a, v, rs, 1), Carve(rs, 1), rs[0].first)
  {
    HeadFits(rs, a.count);
    CarveChained(a, v, rs, 1);
  }

  lemma DataCarved(dev: seq<Byte>, e: seq<Byte>, sb: SuperBlock, table: Area, data: Area,
                   slots: seq<seq<Byte>>, blocks: seq<seq<Byte>>, freeSlots: seq<Region>, freeBlocks: seq<Region>)
    requires SystemOk(dev, sb, table, data, slots, blocks, freeSlots, freeBlocks) && sb.usedDbs < sb.dbCount
    requires HasFit(freeBlocks, 1) && RegionsOk(freeBlocks, data.count) && UnitsSized(data, blocks)
    requires SameOutside(dev, e, data) && View(e, data) == CarveView(data, blocks, freeBlocks, 1)
    ensures FIRST_INODE_PTR <= |e|
    ensures var rs := Carve(freeBlocks, 1);
      var sb' := sb.(dbHead := HeadPtr(data, rs), usedDbs := sb.usedDbs + 1);
      SystemOk(WithSuper(e, sb'), sb', table, data, slots, View(e, data), freeSlots, rs)
    ensures Alloced(data, blocks, freeBlocks, View(e, data), Carve(freeBlocks, 1), freeBlocks[0].first)
  {
    hide ListOk, SuperOk, Splice, View, CarveView, WithSuper, Alloced;
    var rs := Carve(freeBlocks, 1);
    var sb' := sb.(dbHead := HeadPtr(data, rs), usedDbs := sb.usedDbs + 1);
    CarvedList(data, blocks, freeBlocks, sb.dbHead, sb.usedDbs);
    TableFrame(dev, e, table, data);
    SuperWrite(e, sb', table, data, slots, View(e, data));
  }

  lemma TableCarved(dev: seq<Byte>, e: seq<Byte>, sb: SuperBlock, table: Area, data: Area,
                    slots: seq<seq<Byte>>, blocks: seq<seq<Byte>>, freeSlots: seq<Region>, freeBlocks: seq<Region>)
    requires SystemOk(dev, sb, table, data, slots, blocks, freeSlots, freeBlocks) && sb.usedInodes < sb.inodeCount
    requires HasFit(freeSlots, 1) && RegionsOk(freeSlots, table.count) && UnitsSized(table, slots)
    requires SameOutside(dev, e, table) && View(e, table) == CarveView(table, slots, freeSlots, 1)
    ensures FIRST_INODE_PTR <= |e|
    ensures var rs := Carve(freeSlots, 1);
      var sb' := sb.(inodeHead := HeadPtr(table, rs), usedInodes := sb.usedInodes + 1);
      SystemOk(WithSuper(e, sb'), sb', table, data, View(e, table), blocks, rs, freeBlocks)
    ensures Alloced(table, slots, freeSlots, View(e, table), Carve(freeSlots, 1), freeSlots[0].first)
  {
    hide ListOk, SuperOk, Splice, View, CarveView, WithSuper, Alloced;
    var rs := Carve(freeSlots, 1);
    var sb' := sb.(inodeHead := HeadPtr(table, rs), usedInodes := sb.usedInodes + 1);
    CarvedList(table, slots, freeSlots, sb.inodeHead, sb.usedInodes);
    DataFrame(dev, e, table, data);
    SuperWrite(e, sb', table, data, View(e, table), blocks);
  }

  /** The list after one unit is pushed. */
  lemma GivenList(a: Area, v: seq<seq<Byte>>, rs: seq<Region>, head: nat, used: nat, n: nat)
    requires ListOk(a, v, head, rs, used) && n < a.count && n !in Units(rs) && a.unit >= FREE_LIST_SIZE
    ensures used > 0 && Units(Give(n, rs)) == Units(rs) + {n}
    ensures ListOk(a, v[n := Splice(v[n], 0, Header(head, a.unit))], Ptr(a, n), Give(n, rs), used - 1)
  {
    hide Splice;
    GiveOk(n, rs, a.count);
    GiveChained(a, v, rs, n);
    UnitsSize(Give(n, rs), a.count);
  }

  lemma DataGiven(dev: seq<Byte>, sb: SuperBlock, table: Area, data: Area, slots: seq<seq<Byte>>,
                  blocks: seq<seq<Byte>>, freeSlots: seq<Region>, freeBlocks: seq<Region>, n: nat)
    requires SystemOk(dev, sb, table, data, slots, blocks, freeSlots, freeBlocks)
    requires n < data.count && n !in Units(freeBlocks)
    ensures sb.usedDbs > 0 && Units(Give(n, freeBlocks)) == Units(freeBlocks) + {n}
    ensures FIRST_INODE_PTR <= |dev| && |blocks| == data.count && |blocks[n]| == data.unit == sb.blockSize
    ensures FREE_LIST_SIZE <= data.unit && Ptr(data, n) + FREE_LIST_SIZE <= |dev|
    ensures var header := Header(sb.dbHead, data.unit);
      var sb' := sb.(dbHead := Ptr(data, n), usedDbs := sb.usedDbs - 1);
      SystemOk(WithSuper(Splice(dev, Ptr(data, n), header), sb'), sb', table, data,
               slots, blocks[n := Splice(blocks[n], 0, header)], freeSlots, Give(n, freeBlocks))
  {
    hide ListOk, SuperOk, Splice, View, WithSuper;
    var header := Header(sb.dbHead, data.unit);
    GivenList(data, blocks, freeBlocks, sb.dbHead, sb.usedDbs, n);
    DataWrite(dev, sb, table, data, slots, blocks, n, 0, header);
    var sb' := sb.(dbHead := Ptr(data, n), usedDbs := sb.usedDbs - 1);
    SuperWrite(Splice(dev, Ptr(data, n), header), sb', table, data, slots, blocks[n := Splice(blocks[n], 0, header)]);
  }

  lemma TableGiven(dev: seq<Byte>, sb: SuperBlock, table: Area, data: Area, slots: seq<seq<Byte>>,
                   blocks: seq<seq<Byte>>, freeSlots: seq<Region>, freeBlocks: seq<Region>, n: nat)
    requires SystemOk(dev, sb, table, data, slots, blocks, freeSlots, freeBlocks)
    requires n < table.count && n !in Units(freeSlots)
    ensures sb.usedInodes > 0 && Units(Give(n, freeSlots)) == Units(freeSlots) + {n}
    ensures FIRST_INODE_PTR <= |dev| && |slots| == table.count && |slots[n]| == table.unit == INODE_SIZE
    ensures Ptr(table, n) + FREE_LIST_SIZE <= |dev| && Ptr(table, n) == InodePtr(ROOT_INODE + n)
    ensures var header := Header(sb.inodeHead, INODE_SIZE);
      var sb' := sb.(inodeHead := Ptr(table, n), usedInodes := sb.usedInodes - 1);
      SystemOk(WithSuper(Splice(dev, Ptr(table, n), header), sb'), sb', table, data,
               slots[n := Splice(slots[n], 0, header)], blocks, Give(n, freeSlots), freeBlocks)
  {
    hide ListOk, SuperOk, Splice, View, WithSuper;
    SlotNumbers(n);
    var header := Header(sb.inodeHead, INODE_SIZE);
    GivenList(table, slots, freeSlots, sb.inodeHead, sb.usedInodes, n);
    TableWrite(dev, sb, table, data, slots, blocks, n, header);
    var sb' := sb.(inodeHead := Ptr(table, n), usedInodes := sb.usedInodes - 1);
    SuperWrite(Splice(dev, Ptr(table, n), header), sb', table, data, slots[n := Splice(slots[n], 0, header)], blocks);
  }

  lemma SuperKept(d: seq<Byte>, e: seq<Byte>, sb: SuperBlock)
    requires SuperOk(d, sb) && |e| == |d| && e[..FIRST_INODE_PTR] == d[..FIRST_INODE_PTR]
    ensures SuperOk(e, sb)
  {
    var lo, hi := SUPER_BLOCK_PTR, SUPER_BLOCK_PTR + SUPER_BLOCK_BYTES;
    assert e[lo..hi] == e[..FIRST_INODE_PTR][lo..hi] == d[..FIRST_INODE_PTR][lo..hi] == d[lo..hi];
  }

  /** What is left of a region is nothing or can hold a header. */
  lemma RemainderFits(count: nat, k: nat, unit: nat)
    requires unit >= FREE_LIST_SIZE
    ensures count >= k <==> Times(count, unit) >= Times(k, unit)
    ensures count >= k ==> Times(count, unit) - Times(k, unit) == Times(count - k, unit)
    ensures count >= k ==> (count > k <==> Times(count, unit) - Times(k, unit) >= FREE_LIST_SIZE)
  {
    if count < k {
      TimesApart(count, k, unit);
    } else {
      TimesSum(k, count - k, unit);
      if count > k {
        TimesApart(k, count, unit);
      }
    }
  }

  lemma SplitPoint(a: Area, n: nat, k: nat)
    ensures Ptr(a, n) + Times(k, a.unit) == Ptr(a, n + k)
  {
    TimesSum(n, k, a.unit);
  }

  /** Changing the data area leaves superblock and inode table alone. */
  lemma TableFrame(d: seq<Byte>, e: seq<Byte>, table: Area, data: Area)
    requires AreaOk(table, |d|) && AreaOk(data, |d|) && SameOutside(d, e, data)
    requires End(table) <= data.base
    ensures View(e, table) == View(d, table)
    ensures e[..table.base] == d[..table.base]
  {
    assert forall i :: 0 <= i < data.base ==> e[i] == e[..data.base][i] == d[i];
    forall m | 0 <= m < table.count
      ensures View(e, table)[m] == View(d, table)[m]
    {
      PtrInside(table, m, |d|);
      assert UnitAt(e, table, m) == UnitAt(d, table, m);
    }
  }

  /** Changing the inode table leaves the superblock and the data area alone. */
  lemma DataFrame(d: seq<Byte>, e: seq<Byte>, table: Area, data: Area)
    requires AreaOk(table, |d|) && AreaOk(data, |d|) && SameOutside(d, e, table)
    requires End(table) <= data.base
    ensures View(e, data) == View(d, data)
  {
    var end := End(table);
    assert forall i :: end <= i < |d| ==> e[i] == e[end..][i - end] == d[i];
    forall m | 0 <= m < data.count
      ensures View(e, data)[m] == View(d, data)[m]
    {
      PtrInside(data, m, |d|);
      assert UnitAt(e, data, m) == UnitAt(d, data, m);
    }
  }

  /** A header at the front of an area makes a one-region list. */
  lemma FormatList(d: seq<Byte>, a: Area)
    requires AreaOk(a, |d|) && a.count > 0
    requires a.base + FREE_LIST_SIZE <= |d|
    ensures var e := Splice(d, a.base, Header(0, Times(a.count, a.unit)));
      && ListOk(a, View(e, a), a.base, [Region(0, a.count)], 0)
      && SameOutside(d, e, a)
  {
    hide Splice, FromWords;
    var header := Header(0, Times(a.count, a.unit));
    SpliceUnit(d, a, 0, 0, header);
    SpliceFront(View(d, a)[0], header);
    var rs, e := [Region(0, a.count)], Splice(d, a.base, header);
    assert rs[1..] == [];
    assert UnitsSized(a, View(e, a));
    assert RegionsOk(rs, a.count);
    assert Chained(a, View(e, a), rs);
    assert Total(rs) == a.count;
  }

  /** The numbers `format` computes are those of the two areas. */
  lemma FormatSizes(blockSize: nat, inodeCount: nat, blockCount: nat)
    requires BlockSizeOk(blockSize) && UsedBlocks(blockSize, inodeCount) < blockCount
    ensures var t, a := InodeTable(inodeCount), DataArea(blockSize, inodeCount, blockCount);
      && a.base == UsedBlocks(blockSize, inodeCount) * blockSize <= blockSize * blockCount
      && a.count == blockCount - a.base / blockSize > 0
      && Times(t.count, t.unit) == inodeCount * INODE_SIZE
      && Times(a.count, a.unit) == blockSize * blockCount - a.base
  {
    var used := UsedBlocks(blockSize, inodeCount);
    hide UsedBlocks;
    DivUnique(used, 0, blockSize);
    TimesIsMul(inodeCount, INODE_SIZE);
    TimesIsMul(blockCount - used, blockSize);
    assert used * blockSize + (blockCount - used) * blockSize == blockSize * blockCount;
  }

  /** The three writes of `format`. */
  lemma FormatOk(disk: seq<Byte>, super: SuperBlock, t: Area, a: Area)
    requires t == InodeTable(super.inodeCount) && a == Area(super.dbHead, super.blockSize, super.dbCount)
    requires t.count > 0 && a.count > 0 && BlockSizeOk(super.blockSize)
    requires SUPER_BLOCK_PTR + SUPER_BLOCK_BYTES <= t.base && End(t) <= a.base
    requires AreaOk(t, |disk|) && AreaOk(a, |disk|)
    requires super.usedInodes == super.usedDbs == 0 && super.inodeHead == FIRST_INODE_PTR
    ensures t.base + FREE_LIST_SIZE <= |disk| && a.base + FREE_LIST_SIZE <= |disk|
    ensures SUPER_BLOCK_PTR + SUPER_BLOCK_BYTES <= |disk|
    ensures var d1 := Splice(disk, SUPER_BLOCK_PTR, SuperBlockBytes(super));
      var d2 := Splice(d1, t.base, Header(0, Times(t.count, t.unit)));
      var d3 := Splice(d2, a.base, Header(0, Times(a.count, a.unit)));
      && AreaOk(t, |d3|) && AreaOk(a, |d3|)
      && SystemOk(d3, super, t, a, View(d3, t), View(d3, a), [Region(0, t.count)], [Region(0, a.count)])
  {
    hide SuperBlockBytes, Splice, Header, Times, View, ListOk;
    var d1 := Splice(disk, SUPER_BLOCK_PTR, SuperBlockBytes(super));
    PtrInside(t, 0, |disk|);
    PtrInside(a, 0, |disk|);
    FormatDevice(d1, t, a, Header(0, Times(t.count, t.unit)), Header(0, Times(a.count, a.unit)));
    var d2 := Splice(d1, t.base, Header(0, Times(t.count, t.unit)));
    SpliceFrontOf(disk, SUPER_BLOCK_PTR, SuperBlockBytes(super));
    SuperKept(d1, Splice(d2, a.base, Header(0, Times(a.count, a.unit))), super);
  }

  lemma SpliceFrontOf(d: seq<Byte>, p: nat, s: seq<Byte>)
    requires p + |s| <= |d|
    ensures Splice(d, p, s)[p..p + |s|] == s
  {
  }

  /** The two initial headers make two one-region lists. */
  lemma FormatDevice(d: seq<Byte>, table: Area, data: Area, h1: seq<Byte>, h2: seq<Byte>)
    requires AreaOk(table, |d|) && AreaOk(data, |d|) && table.count > 0 && data.count > 0
    requires End(table) <= data.base
    requires h1 == Header(0, Times(table.count, table.unit)) && h2 == Header(0, Times(data.count, data.unit))
    ensures table.base + FREE_LIST_SIZE <= |d| && data.base + FREE_LIST_SIZE <= |d|
    ensures var e := Splice(Splice(d, table.base, h1), data.base, h2);
      && ListOk(table, View(e, table), table.base, [Region(0, table.count)], 0)
      && ListOk(data, View(e, data), data.base, [Region(0, data.count)], 0)
      && e[..table.base] == d[..table.base]
  {
    hide ListOk, Splice, View, Header;
    PtrInside(table, 0, |d|);
    PtrInside(data, 0, |d|);
    FormatList(d, table);
    var d1 := Splice(d, table.base, h1);
    FormatList(d1, data);
    TableFrame(d1, Splice(d1, data.base, h2), table, data);
  }
}
