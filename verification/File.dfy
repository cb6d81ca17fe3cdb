/** The open file `DkFile` (file.rs): block lookup and allocation through the pointer cache. */
module DkFiles {
  import opened Arith
  import opened Codec
  import opened Regions
  import opened Areas
  import opened Layout
  import opened Positions
  import opened BlockMap
  import opened Frames
  import opened Contents
  import opened Release
  import opened Need
  import opened Attributes
  import opened Results
  import opened DonkeyFs

  class DkFile {
    var inode: Inode
    var pos: nat
    var xattr: Attrs
    var dirty: bool
    var cache: seq<Slot>
    ghost var at: seq<Pos>
    /** Block number of every node, data block and xattr block of the file. */
    ghost var nodes: map<Pos, nat>

    /** `DkFile::new`; the ghost map is the one the inode represents. */
    constructor (i: Inode, ghost nodes: map<Pos, nat>, ghost at: seq<Pos>)
      ensures inode == i && pos == 0 && xattr == map[] && !dirty && cache == NO_CACHE
      ensures this.nodes == nodes && this.at == at
    {
      inode, pos, xattr, dirty, cache := i, 0, map[], false, NO_CACHE;
      this.nodes, this.at := nodes, at;
    }

    ghost function Map(): FileMap
      reads this`inode, this`cache, this`at, this`nodes
    {
      FileMap(inode.ptrs, inode.xattrPtr, cache, at, nodes)
    }

    ghost function St(dk: Donkey): State
      reads this`inode, this`nodes, dk
    {
      State(dk.blocks, dk.freeBlocks, dk.sb.usedDbs, inode, nodes)
    }

    /** How far the inode's block counter is ahead of the blocks the file has. */
    ghost function Slack(): int
      reads this`inode, this`nodes
    {
      inode.blocks - |nodes|
    }

    ghost predicate OwnsSlot(dk: Donkey)
      reads this`inode, dk
    {
      && InodeShaped(inode)
      && ROOT_INODE <= inode.ino < ROOT_INODE + dk.table.count && inode.ino - ROOT_INODE !in Units(dk.freeSlots)
      && |dk.slots| == dk.table.count
    }

    /** Disk and memory agree: a file that is not dirty can be dropped and reopened. */
    ghost predicate Saved(dk: Donkey)
      requires OwnsSlot(dk) && dk.Valid()
      reads this`inode, this`cache, this`at, this`nodes, dk
    {
      && Clean(dk.blocks, Map())
      && (InodeFits(inode) ==> InodeIn(dk.slots[inode.ino - ROOT_INODE]) == inode)
    }

    ghost predicate Valid(dk: Donkey)
      reads this`inode, this`dirty, this`cache, this`at, this`nodes, dk
    {
      && dk.Valid() && OwnsSlot(dk)
      && FileOk(dk.data, dk.blocks, dk.freeBlocks, Map())
      && |nodes| <= inode.blocks
      && (!dirty ==> Saved(dk))
    }

    // ----- Lookup -----

    /** `level_off`. */
    method LevelOff(dk: Donkey, bi: nat) returns (level: nat, off: nat)
      requires PtrsShaped(inode.ptrs) && dk.sb.blockSize == dk.data.unit && bi < MaxBlocks(Pc(dk.data))
      ensures level == TreeOf(Pc(dk.data), bi) && off == bi - Start(Pc(dk.data), level)
    {
      off := bi;
      level := 0;
      var pc := dk.sb.blockSize / 8;
      var multi := 1;
      while level <= 4
        invariant level <= 5 && off == bi - Start(pc, level) && multi == Span(pc, level)
      {
        var len := |inode.ptrs[level]| * multi;
        assert len == Len(pc, level);
        if off < len {
          TreeUnique(pc, bi, level);
          return;
        }
        off := off - len;
        TimesIsMul(pc, multi);
        multi := multi * pc;
        level := level + 1;
      }
      assert false;
    }

    /** Writes slot `h` back if it is loaded. */
    method WriteBack(dk: Donkey, h: nat, ghost f: FileMap)
      requires dk.Valid() && FileOk(dk.data, dk.blocks, dk.freeBlocks, f)
      requires h < 4 == |cache| == |f.cache| && f.cache[h] == cache[h]
      modifies dk`dev, dk`blocks
      ensures dk.Valid() && dk.blocks == Evicted(old(dk.blocks), f, h)
    {
      hide Coherent, Words, FromWords, Linked, SystemOk;
      FileFacts(dk.data, dk.blocks, dk.freeBlocks, f);
      if cache[h].Loaded? {
        SlotFacts(dk.data, dk.blocks, f, h);
        ghost var n := f.nodes[f.at[h]];
        BlockSized(dk, n);
        SpliceAll(dk.blocks[n], FromWords(cache[h].words));
        var _ := dk.WriteBlock(cache[h].ptr, FromWords(cache[h].words), n, 0);
      }
    }

    /** `load_ptrs`: brings the root block of a tree into its slot. */
    method LoadPtrs(dk: Donkey, level: nat, ptr: nat, ghost p: Pos) returns (r: Option<nat>)
      requires Valid(dk) && 1 <= level <= 4 && p.height == level && ptr == Entry(dk.data, nodes, p)
      modifies this`cache, this`at, dk`dev, dk`blocks
      ensures Valid(dk) && Quiet(old(St(dk)), St(dk))
      ensures old(Clean(dk.blocks, Map())) ==> Clean(dk.blocks, Map())
      ensures r == if ptr == 0 then None else Some(ptr)
      ensures ptr != 0 <==> p in nodes
      ensures p in nodes ==> Holds(Map(), level - 1, p)
    {
      hide Coherent, Holds, SystemOk, Clean;
      FileFacts(dk.data, dk.blocks, dk.freeBlocks, Map());
      EntryZero(dk.data, nodes, p);
      if ptr == 0 {
        return None;
      }
      LoadNode(dk, level - 1, ptr, p);
      return Some(ptr);
    }

    /** The common end of `load_ptrs` and `load_ptrs_in_cache`. */
    method LoadNode(dk: Donkey, h: nat, ptr: nat, ghost p: Pos)
      requires Valid(dk) && h < 4 && p in nodes && p.height == h + 1 && ptr == Ptr(dk.data, nodes[p])
      modifies this`cache, this`at, dk`dev, dk`blocks
      ensures Valid(dk) && Quiet(old(St(dk)), St(dk)) && Holds(Map(), h, p)
      ensures old(Clean(dk.blocks, Map())) ==> Clean(dk.blocks, Map())
    {
      hide FileOk, Holds, SystemOk, Words, Ptr, Clean, Evicted, DiskWords, InodeFits, InodeIn, Quiet, Units, Times;
      ghost var f, s := Map(), St(dk);
      QuietSame(s);
      FileFacts(dk.data, dk.blocks, dk.freeBlocks, f);
      BlockSized(dk, nodes[p]);
      SlotByPtr(dk.data, dk.blocks, dk.freeBlocks, f, h, p);
      if cache[h].Loaded? && cache[h].ptr == ptr {
        return;
      }
      LoadStep(dk.data, s, f, h, p);
      WriteBack(dk, h, f);
      BlockSized(dk, nodes[p]);
      DiskWordsAt(dk.blocks, nodes, p);
      var bytes := dk.ReadBlock(ptr, dk.sb.blockSize, nodes[p], 0);
      cache, at := cache[h := Loaded(ptr, Words(bytes.value))], at[h := p];
    }

    /** `load_ptrs_in_cache`: brings child `index` of the node in slot `level - 1` into its own slot. */
    method LoadPtrsInCache(dk: Donkey, level: nat, index: nat, ghost p: Pos) returns (r: bool)
      requires Valid(dk) && 2 <= level <= 4 && p.height == level && Holds(Map(), level - 1, p) && index < Pc(dk.data)
      modifies this`cache, this`at, dk`dev, dk`blocks
      ensures Valid(dk) && Quiet(old(St(dk)), St(dk))
      ensures old(Clean(dk.blocks, Map())) ==> Clean(dk.blocks, Map())
      ensures var c := Child(Pc(dk.data), p, index);
        r == (c in nodes) && (c in nodes ==> Holds(Map(), level - 2, c))
    {
      hide FileOk, Holds, SystemOk, Words, Ptr, Clean, Quiet, InodeFits, InodeIn;
      ghost var c := Child(Pc(dk.data), p, index);
      QuietSame(St(dk));
      HeldFacts(dk.data, dk.blocks, dk.freeBlocks, Map(), level - 1, p);
      WordIs(dk.data, nodes, p, cache[level - 1].words, index);
      var newPtr := cache[level - 1].words[index];
      if newPtr == 0 {
        return false;
      }
      LoadNode(dk, level - 2, newPtr, c);
      return true;
    }

    /**
     `locate`: exactly the plain lookup on the disk overlaid by the cache. Map, inode and data blocks stay
     as they are, whatever blocks the cache writes back on the way.
     */
    method Locate(dk: Donkey, bi: nat) returns (r: Option<nat>)
      requires Valid(dk) && bi < MaxBlocks(Pc(dk.data))
      modifies this`cache, this`at, dk`dev, dk`blocks
      ensures Valid(dk) && Quiet(old(St(dk)), St(dk))
      ensures old(Clean(dk.blocks, Map())) ==> Clean(dk.blocks, Map())
      ensures r == Lookup(dk.data, nodes, bi)
    {
      hide Valid, Holds, Quiet, Leaf, OnPath, Span, TreeOf, Start, MaxBlocks, Lookup, Pow, FileOk, Units, Times,
        Linked, Clean;
      ghost var s := St(dk);
      QuietSame(s);
      ValidFacts(this, dk);
      ValidFile(this, dk);
      var level: nat, off: nat := LevelOff(dk, bi);
      if level == 0 {
        DirectWord(this, dk, bi);
        return if inode.ptrs[0][off] == 0 then None else Some(inode.ptrs[0][off]);
      }
      r := LocateIndirect(dk, bi, level, off);
    }

    /** The indirect branch of `locate`. */
    method LocateIndirect(dk: Donkey, bi: nat, tree: nat, offset: nat) returns (r: Option<nat>)
      requires Valid(dk) && bi < MaxBlocks(Pc(dk.data))
      requires IsTree(tree) && tree == TreeOf(Pc(dk.data), bi) && offset == bi - Start(Pc(dk.data), tree)
      modifies this`cache, this`at, dk`dev, dk`blocks
      ensures Valid(dk) && Quiet(old(St(dk)), St(dk))
      ensures old(Clean(dk.blocks, Map())) ==> Clean(dk.blocks, Map())
      ensures r == Lookup(dk.data, nodes, bi)
    {
      hide Valid, Holds, Quiet, Leaf, OnPath, Span, TreeOf, Start, MaxBlocks, Lookup, Pow, FileOk, Units, Times,
        Linked, Clean;
      ghost var s, p := St(dk), Root(tree);
      ghost var clean := Clean(dk.blocks, Map());
      var level: nat, off: nat := tree, offset;
      ValidFacts(this, dk);
      ValidFile(this, dk);
      RootPtr(dk.data, dk.blocks, dk.freeBlocks, Map(), level);
      PathStart(Pc(dk.data), bi);
      // The source stores the returned pointer back into the inode; it is the one passed in.
      var root := LoadPtrs(dk, level, inode.ptrs[level][0], p);
      if root.None? {
        AbsentOnPath(this, dk, bi, p, off);
        return None;
      }
      var pc: nat, ipc: nat := dk.sb.blockSize / 8, Pow(dk.sb.blockSize / 8, level);
      SpanIsPow(pc, level);
      while level > 1
        invariant 1 <= level <= 4 && p.height == level && pc == Pc(dk.data) && ipc == Span(pc, level)
        invariant OnPath(pc, bi, p, off) && Holds(Map(), level - 1, p)
        invariant Valid(dk) && Quiet(s, St(dk)) && (clean ==> Clean(dk.blocks, Map()))
        decreases level
      {
        PathStep(pc, bi, p, off, Span(pc, level - 1));
        ipc := ipc / pc;
        ghost var s1 := St(dk);
        var present := LoadPtrsInCache(dk, level, off / ipc, p);
        QuietTrans(s, s1, St(dk));
        p := Child(pc, p, off / ipc);
        off := off % ipc;
        if !present {
          AbsentOnPath(this, dk, bi, p, off);
          return None;
        }
        level := level - 1;
      }
      PathEnd(pc, bi, p, off);
      LeafWord(this, dk, bi, p, off);
      return if cache[0].words[off] == 0 then None else Some(cache[0].words[off]);
    }

    // ----- Allocation -----

    /** Allocates a block for an empty pointer `ptrs[level][index]` of the inode. */
    method AllocTop(dk: Donkey, level: nat, index: nat, ghost c: Pos, ghost leaf: Pos) returns (r: DkResult<nat>)
      requires Valid(dk) && dirty && level <= 4 && Top(c) && c.tree == level && c.index == index && c !in nodes
      requires c.height == 0 ==> c == leaf
      requires c.height > 0 ==> SlotClean(dk.blocks, Map(), c.height - 1)
      modifies this`inode, this`cache, this`at, this`nodes, dk`dev, dk`sb, dk`blocks, dk`freeBlocks
      ensures Valid(dk) && Extended(old(St(dk)), St(dk), leaf)
      ensures Grown(old(nodes), nodes, {c})
      ensures r.Err? ==> r.error == Exhausted && dk.sb.usedDbs == dk.data.count && c !in nodes
      ensures r.Ok? ==> c in nodes && r.value == Ptr(dk.data, nodes[c])
      ensures r.Ok? && c.height > 0 ==> Holds(Map(), c.height - 1, c)
    {
      hide Valid, FileOk, Holds, SystemOk, Ptr, SlotClean, DataOk, Extended, Alloced, Carve, Units, Grown;
      ghost var s := St(dk);
      ValidParts(this, dk);
      FileLengths(dk.data, dk.blocks, dk.freeBlocks, Map());
      BlockUnit(dk);
      ExtendedSame(s, leaf);
      GrownSame(nodes, {c});
      r := dk.AllocateDb();
      if r.Err? {
        ValidBuild(this, dk);
        return;
      }
      PlantTop(dk, level, index, r.value, c, leaf, s, s.free[0].first);
    }

    /** Stores the pointer to the fresh block in the inode and brings a pointer block, empty, into its slot. */
    method PlantTop(dk: Donkey, level: nat, index: nat, ptr: nat, ghost c: Pos, ghost leaf: Pos, ghost s: State,
                    ghost n: nat)
      requires dk.Valid() && dirty && FileOk(dk.data, s.blocks, s.free, Map()) && OwnsSlot(dk)
      requires dk.sb.blockSize == dk.data.unit && |cache| == |at| == 4
      requires inode == s.inode && nodes == s.nodes && |s.nodes| <= s.inode.blocks && dk.sb.usedDbs == s.used + 1
      requires Alloced(dk.data, s.blocks, s.free, dk.blocks, dk.freeBlocks, n) && ptr == Ptr(dk.data, n)
      requires level <= 4 && Top(c) && c.tree == level && c.index == index && c !in nodes
      requires c.height == 0 ==> c == leaf
      requires c.height > 0 ==> c.height <= 4 && SlotClean(s.blocks, Map(), c.height - 1)
      modifies this`inode, this`cache, this`at, this`nodes
      ensures Valid(dk) && Extended(s, St(dk), leaf) && Grown(old(nodes), nodes, {c})
      ensures c in nodes && nodes[c] == n
      ensures c.height > 0 ==> Holds(Map(), c.height - 1, c)
    {
      hide Valid, FileOk, Holds, SystemOk, Ptr, SlotClean, DataOk, Extended, Planted, Alloced, WithPtr, Units,
        ZeroWords, Times, Entry, Linked, Grown, PtrsShaped, Clean, InodeFits, InodeIn;
      ghost var f, a := Map(), dk.data;
      TopIndex(inode.ptrs, c);
      PlantStep(a, s, f, dk.blocks, dk.freeBlocks, n, c, leaf);
      inode := inode.(blocks := inode.blocks + 1, ptrs := WithPtr(inode.ptrs, level, index, ptr));
      if level > 0 {
        cache := cache[level - 1 := Loaded(ptr, ZeroWords(dk.sb.blockSize / 8))];
        at := at[level - 1 := c];
      }
      GrownBy(nodes, c, n);
      nodes := nodes[c := n];
      PlantedIs(a, f, c, n, Map());
      assert inode == s.inode.(blocks := s.inode.blocks + 1, ptrs := Map().ptrs);
      ExtendedFacts(s, St(dk), leaf);
      ValidBuild(this, dk);
    }

    /** `load_ptrs_alloc`; it also stores the returned root pointer, as its caller does next. */
    method LoadPtrsAlloc(dk: Donkey, level: nat, ptr: nat, ghost leaf: Pos) returns (r: DkResult<nat>)
      requires Valid(dk) && dirty && 1 <= level <= 4 && ptr == Entry(dk.data, nodes, Root(level))
      modifies this`inode, this`cache, this`at, this`nodes, dk`dev, dk`sb, dk`blocks, dk`freeBlocks
      ensures Valid(dk) && Extended(old(St(dk)), St(dk), leaf)
      ensures Grown(old(nodes), nodes, {Root(level)})
      ensures r.Err? ==> r.error == Exhausted && dk.sb.usedDbs == dk.data.count && Root(level) !in nodes
      ensures r.Ok? ==> Holds(Map(), level - 1, Root(level))
    {
      hide Valid, OwnsSlot, FileOk, Holds, SystemOk, Ptr, SlotClean, PtrsShaped, DataOk, Evicted, Quiet, Extended,
        Carve, Units, Times, Grown, Clean, Owned;
      ghost var c, f, s, a := Root(level), Map(), St(dk), dk.data;
      ValidParts(this, dk);
      FileLengths(a, dk.blocks, dk.freeBlocks, f);
      EntryZero(a, nodes, c);
      GrownSame(nodes, {c});
      if ptr != 0 {
        LoadNode(dk, level - 1, ptr, c);
        QuietExtends(s, St(dk), leaf);
        return Ok(ptr);
      }
      EvictStep(a, s, f, level - 1);
      WriteBack(dk, level - 1, f);
      ValidBuild(this, dk);
      ghost var t := St(dk);
      QuietExtends(s, t, leaf);
      r := AllocTop(dk, level, 0, c, leaf);
      ExtendedTrans(s, t, St(dk), leaf);
    }

    /** Allocates a pointer block for the empty word `index` of the block in slot `level - 1`. */
    method AllocChild(dk: Donkey, level: nat, index: nat, ghost p: Pos, ghost leaf: Pos) returns (r: DkResult<()>)
      requires Valid(dk) && dirty && 2 <= level <= 4 && p.height == level && Holds(Map(), level - 1, p)
      requires index < Pc(dk.data)
      requires |cache| == 4 && cache[level - 1].Loaded?
      requires |cache[level - 1].words| == Pc(dk.data) && cache[level - 1].words[index] == 0
      requires Child(Pc(dk.data), p, index) !in nodes
      modifies this`inode, this`cache, this`at, this`nodes, dk`dev, dk`sb, dk`blocks, dk`freeBlocks
      ensures Valid(dk) && Extended(old(St(dk)), St(dk), leaf)
      ensures Grown(old(nodes), nodes, {Child(Pc(dk.data), p, index)})
      ensures r.Err? ==>
        r.error == Exhausted && dk.sb.usedDbs == dk.data.count && Child(Pc(dk.data), p, index) !in nodes
      ensures r.Ok? ==> Holds(Map(), level - 2, Child(Pc(dk.data), p, index))
    {
      hide Valid, FileOk, Holds, SystemOk, Extended, Alloced, Carve, Units, DataOk, Grown, Child;
      ghost var s := St(dk);
      ValidParts(this, dk);
      FileLengths(dk.data, dk.blocks, dk.freeBlocks, Map());
      BlockUnit(dk);
      ExtendedSame(s, leaf);
      GrownSame(nodes, {Child(Pc(dk.data), p, index)});
      var ptr := dk.AllocateDb();
      if ptr.Err? {
        ValidBuild(this, dk);
        return Err(ptr.error);
      }
      HangChild(dk, level, index, ptr.value, p, leaf, s, s.free[0].first);
      return Ok(());
    }

    /** Stores the pointer to the fresh block and brings the block, empty, into its slot. */
    method HangChild(dk: Donkey, level: nat, index: nat, ptr: nat, ghost p: Pos, ghost leaf: Pos, ghost s: State,
                     ghost n: nat)
      requires dk.Valid() && dirty && FileOk(dk.data, s.blocks, s.free, Map()) && OwnsSlot(dk)
      requires dk.sb.blockSize == dk.data.unit
      requires inode == s.inode && nodes == s.nodes && |s.nodes| <= s.inode.blocks && dk.sb.usedDbs == s.used + 1
      requires Alloced(dk.data, s.blocks, s.free, dk.blocks, dk.freeBlocks, n) && ptr == Ptr(dk.data, n)
      requires 2 <= level <= 4 && p.height == level && Holds(Map(), level - 1, p) && index < Pc(dk.data)
      requires |cache| == |at| == 4 && cache[level - 1].Loaded?
      requires |cache[level - 1].words| == Pc(dk.data) && cache[level - 1].words[index] == 0
      modifies this`inode, this`cache, this`at, this`nodes, dk`dev, dk`blocks
      ensures Valid(dk) && Extended(s, St(dk), leaf)
      ensures Grown(old(nodes), nodes, {Child(Pc(dk.data), p, index)})
      ensures Holds(Map(), level - 2, Child(Pc(dk.data), p, index))
    {
      hide Valid, FileOk, Holds, SystemOk, Ptr, SlotClean, Evicted, Extended, Hung, Alloced, Units, ZeroWords, Linked,
        Grown, Entry, WithZeros;
      ghost var c, f, a := Child(Pc(dk.data), p, index), Map(), dk.data;
      HangStep(a, s, f, dk.blocks, dk.freeBlocks, n, p, index, leaf);
      ghost var b := ChildEvicted(dk.blocks, f, p);
      var words := cache[level - 1].words[index := ptr];
      cache := cache[level - 1 := Loaded(cache[level - 1].ptr, words)];
      inode := inode.(blocks := inode.blocks + 1);
      // The source first compares the slot's pointer with the new one; they differ (FreshPtr).
      WriteBack(dk, level - 2, f);
      cache, at := cache[level - 2 := Loaded(ptr, ZeroWords(dk.sb.blockSize / 8))], at[level - 2 := c];
      GrownBy(nodes, c, n);
      nodes := nodes[c := n];
      HungIs(a, f, p, index, n, Map());
      HungValid(this, dk, s, b, leaf);
    }

    /** `load_ptrs_in_cache_alloc`: as `LoadPtrsInCache`, allocating the child if it is absent. */
    method LoadPtrsInCacheAlloc(dk: Donkey, level: nat, index: nat, ghost p: Pos,
                                ghost leaf: Pos) returns (r: DkResult<()>)
      requires Valid(dk) && dirty && 2 <= level <= 4 && p.height == level && Holds(Map(), level - 1, p)
      requires index < Pc(dk.data)
      modifies this`inode, this`cache, this`at, this`nodes, dk`dev, dk`sb, dk`blocks, dk`freeBlocks
      ensures Valid(dk) && Extended(old(St(dk)), St(dk), leaf)
      ensures Grown(old(nodes), nodes, {Child(Pc(dk.data), p, index)})
      ensures r.Err? ==>
        r.error == Exhausted && dk.sb.usedDbs == dk.data.count && Child(Pc(dk.data), p, index) !in nodes
      ensures r.Ok? ==> Holds(Map(), level - 2, Child(Pc(dk.data), p, index))
    {
      hide Valid, FileOk, Holds, Ptr, Quiet, Extended, Units, Times, Linked, Grown;
      ghost var s := St(dk);
      GrownSame(nodes, {Child(Pc(dk.data), p, index)});
      ValidFile(this, dk);
      HeldFacts(dk.data, dk.blocks, dk.freeBlocks, Map(), level - 1, p);
      WordIs(dk.data, nodes, p, cache[level - 1].words, index);
      if cache[level - 1].words[index] == 0 {
        r := AllocChild(dk, level, index, p, leaf);
      } else {
        LoadNode(dk, level - 2, cache[level - 1].words[index], Child(Pc(dk.data), p, index));
        QuietExtends(s, St(dk), leaf);
        return Ok(());
      }
    }

    /** Allocates a data block for the empty word `off` of the block in slot 0. */
    method AllocLeaf(dk: Donkey, off: nat, ghost p: Pos, ghost leaf: Pos) returns (r: DkResult<nat>)
      requires Valid(dk) && dirty && p.height == 1 && Holds(Map(), 0, p) && off < Pc(dk.data)
      requires |cache| > 0 && cache[0].Loaded? && off < |cache[0].words| && cache[0].words[off] == 0
      requires leaf == Child(Pc(dk.data), p, off) && leaf !in nodes
      modifies this`inode, this`cache, this`nodes, dk`dev, dk`sb, dk`blocks, dk`freeBlocks
      ensures Valid(dk) && Extended(old(St(dk)), St(dk), leaf)
      ensures Grown(old(nodes), nodes, {leaf})
      ensures r.Err? ==> r.error == Exhausted && dk.sb.usedDbs == dk.data.count && leaf !in nodes
      ensures r.Ok? ==> leaf in nodes && r.value == Ptr(dk.data, nodes[leaf])
    {
      hide Valid, FileOk, Holds, SystemOk, Extended, Alloced, Carve, Units, DataOk, Grown, Ptr;
      ghost var s := St(dk);
      ValidParts(this, dk);
      FileLengths(dk.data, dk.blocks, dk.freeBlocks, Map());
      HeldFacts(dk.data, dk.blocks, dk.freeBlocks, Map(), 0, p);
      ExtendedSame(s, leaf);
      GrownSame(nodes, {leaf});
      r := dk.AllocateDb();
      if r.Err? {
        ValidBuild(this, dk);
        return;
      }
      HangLeaf(dk, off, r.value, p, leaf, s, s.free[0].first);
    }

    /** Stores the pointer to the fresh data block. */
    method HangLeaf(dk: Donkey, off: nat, ptr: nat, ghost p: Pos, ghost leaf: Pos, ghost s: State, ghost n: nat)
      requires dk.Valid() && dirty && FileOk(dk.data, s.blocks, s.free, Map()) && OwnsSlot(dk)
      requires inode == s.inode && nodes == s.nodes && |s.nodes| <= s.inode.blocks && dk.sb.usedDbs == s.used + 1
      requires Alloced(dk.data, s.blocks, s.free, dk.blocks, dk.freeBlocks, n) && ptr == Ptr(dk.data, n)
      requires p.height == 1 && Holds(Map(), 0, p) && off < Pc(dk.data) && leaf == Child(Pc(dk.data), p, off)
      requires |cache| == |at| == 4 && cache[0].Loaded?
      requires |cache[0].words| == Pc(dk.data) && cache[0].words[off] == 0
      modifies this`inode, this`cache, this`nodes
      ensures Valid(dk) && Extended(s, St(dk), leaf) && Grown(old(nodes), nodes, {leaf})
      ensures leaf in nodes && nodes[leaf] == n
    {
      hide Valid, FileOk, Holds, SystemOk, Ptr, SlotClean, Evicted, Extended, Hung, Alloced, Units, Linked, Grown,
        Times;
      ghost var f, a := Map(), dk.data;
      HangStep(a, s, f, dk.blocks, dk.freeBlocks, n, p, off, leaf);
      var words := cache[0].words[off := ptr];
      cache := cache[0 := Loaded(cache[0].ptr, words)];
      inode := inode.(blocks := inode.blocks + 1);
      GrownBy(nodes, leaf, n);
      nodes := nodes[leaf := n];
      HungIs(a, f, p, off, n, Map());
      HungValid(this, dk, s, dk.blocks, leaf);
    }

    /**
     `locate_alloc`: as `Locate`, filling in what is missing on the way. At most the entry for `bi` is new;
     when the device is full the nodes already added stay, and no entry changes.
     */
    method LocateAlloc(dk: Donkey, bi: nat) returns (r: DkResult<nat>)
      requires Valid(dk) && dirty && bi < MaxBlocks(Pc(dk.data))
      modifies this`inode, this`cache, this`at, this`nodes, dk`dev, dk`sb, dk`blocks, dk`freeBlocks
      ensures Valid(dk) && Extended(old(St(dk)), St(dk), Leaf(Pc(dk.data), bi))
      ensures Pc(dk.data) > 0 && Grown(old(nodes), nodes, PathNodes(Pc(dk.data), bi))
      ensures r.Err? ==> r.error == Exhausted && dk.sb.usedDbs == dk.data.count && Lookup(dk.data, nodes, bi) == None
      ensures r.Ok? ==> Lookup(dk.data, nodes, bi) == Some(r.value)
    {
      hide Valid, Extended, TreeOf, Start, MaxBlocks, Leaf, PathNodes, Grown, Lookup, FileOk;
      PcPositive(this, dk);
      ValidFacts(this, dk);
      var level: nat, off: nat := LevelOff(dk, bi);
      if level == 0 {
        r := LocateAllocDirect(dk, bi, off);
      } else {
        r := LocateAllocIndirect(dk, bi, level, off);
      }
    }

    /** The direct branch of `locate_alloc`. */
    method LocateAllocDirect(dk: Donkey, bi: nat, off: nat) returns (r: DkResult<nat>)
      requires Valid(dk) && dirty && bi < MaxBlocks(Pc(dk.data)) && TreeOf(Pc(dk.data), bi) == 0
      requires off == bi - Start(Pc(dk.data), 0)
      modifies this`inode, this`cache, this`at, this`nodes, dk`dev, dk`sb, dk`blocks, dk`freeBlocks
      ensures Valid(dk) && Extended(old(St(dk)), St(dk), Leaf(Pc(dk.data), bi))
      ensures Pc(dk.data) > 0 && Grown(old(nodes), nodes, PathNodes(Pc(dk.data), bi))
      ensures r.Err? ==> r.error == Exhausted && dk.sb.usedDbs == dk.data.count && Lookup(dk.data, nodes, bi) == None
      ensures r.Ok? ==> Lookup(dk.data, nodes, bi) == Some(r.value)
    {
      hide Valid, Holds, Extended, OnPath, Span, TreeOf, Start, MaxBlocks, Pow, FileOk, Units, Times, Linked, Leaf,
        PathNodes, Grown, Lookup, Ptr;
      PcPositive(this, dk);
      ghost var before, leaf, path := nodes, Leaf(Pc(dk.data), bi), PathNodes(Pc(dk.data), bi);
      ExtendedSame(St(dk), leaf);
      LeafOnPath(Pc(dk.data), bi);
      GrownSame(nodes, path);
      DirectWord(this, dk, bi);
      LeafLookup(dk.data, nodes, bi);
      if inode.ptrs[0][off] == 0 {
        r := AllocTop(dk, 0, off, leaf, leaf);
        GrownOn(before, before, nodes, path, {leaf});
        LeafLookup(dk.data, nodes, bi);
        return;
      }
      return Ok(inode.ptrs[0][off]);
    }

    /** The end of the descent: the word for the data block, filled if it is empty. */
    method LeafAlloc(dk: Donkey, bi: nat, off: nat, ghost p: Pos) returns (r: DkResult<nat>)
      requires Valid(dk) && dirty && Pc(dk.data) > 0 && bi < MaxBlocks(Pc(dk.data))
      requires OnPath(Pc(dk.data), bi, p, off) && p.height == 1 && Holds(Map(), 0, p)
      modifies this`inode, this`cache, this`at, this`nodes, dk`dev, dk`sb, dk`blocks, dk`freeBlocks
      ensures Valid(dk) && Extended(old(St(dk)), St(dk), Leaf(Pc(dk.data), bi))
      ensures Grown(old(nodes), nodes, PathNodes(Pc(dk.data), bi))
      ensures r.Err? ==> r.error == Exhausted && dk.sb.usedDbs == dk.data.count && Lookup(dk.data, nodes, bi) == None
      ensures r.Ok? ==> Lookup(dk.data, nodes, bi) == Some(r.value)
    {
      hide Valid, Holds, Extended, OnPath, MaxBlocks, FileOk, Units, Times, Linked, Leaf, Grown, PathNodes, Lookup,
        Ptr;
      ghost var leaf := Leaf(Pc(dk.data), bi);
      ExtendedSame(St(dk), leaf);
      ghost var before, path := nodes, PathNodes(Pc(dk.data), bi);
      GrownSame(nodes, path);
      LeafOnPath(Pc(dk.data), bi);
      PathEnd(Pc(dk.data), bi, p, off);
      LeafWord(this, dk, bi, p, off);
      LeafLookup(dk.data, nodes, bi);
      if cache[0].words[off] == 0 {
        r := AllocLeaf(dk, off, p, leaf);
        GrownOn(before, before, nodes, path, {leaf});
        LeafLookup(dk.data, nodes, bi);
        return;
      }
      return Ok(cache[0].words[off]);
    }

    /** One step of the descent, allocating the child if it is absent. */
    method StepAlloc(dk: Donkey, bi: nat, level: nat, index: nat, rest: nat, ghost p: Pos) returns (r: DkResult<()>)
      requires Valid(dk) && dirty && 2 <= level <= 4 && p.height == level && Holds(Map(), level - 1, p)
      requires Pc(dk.data) > 0 && bi < MaxBlocks(Pc(dk.data)) && index < Pc(dk.data)
      requires OnPath(Pc(dk.data), bi, Child(Pc(dk.data), p, index), rest)
      modifies this`inode, this`cache, this`at, this`nodes, dk`dev, dk`sb, dk`blocks, dk`freeBlocks
      ensures Valid(dk) && Extended(old(St(dk)), St(dk), Leaf(Pc(dk.data), bi))
      ensures Grown(old(nodes), nodes, PathNodes(Pc(dk.data), bi))
      ensures r.Err? ==> r.error == Exhausted && dk.sb.usedDbs == dk.data.count && Lookup(dk.data, nodes, bi) == None
      ensures r.Ok? ==> Holds(Map(), level - 2, Child(Pc(dk.data), p, index))
    {
      hide Valid, Holds, Extended, OnPath, Span, TreeOf, Start, MaxBlocks, FileOk, Units, Times, Linked, Leaf,
        PathNodes, Grown, Lookup;
      ghost var before, c := nodes, Child(Pc(dk.data), p, index);
      DescentOnPath(Pc(dk.data), bi, c, rest);
      r := LoadPtrsInCacheAlloc(dk, level, index, p, Leaf(Pc(dk.data), bi));
      GrownSame(before, PathNodes(Pc(dk.data), bi));
      GrownOn(before, before, nodes, PathNodes(Pc(dk.data), bi), {c});
      if r.Err? {
        AbsentOnPath(this, dk, bi, c, rest);
      }
    }

    /** The start of the descent: the root of the tree, allocated if it is absent. */
    method RootAlloc(dk: Donkey, bi: nat, tree: nat, ghost offset: nat) returns (r: DkResult<nat>)
      requires Valid(dk) && dirty && bi < MaxBlocks(Pc(dk.data))
      requires IsTree(tree) && tree == TreeOf(Pc(dk.data), bi) && offset == bi - Start(Pc(dk.data), tree)
      modifies this`inode, this`cache, this`at, this`nodes, dk`dev, dk`sb, dk`blocks, dk`freeBlocks
      ensures Valid(dk) && Extended(old(St(dk)), St(dk), Leaf(Pc(dk.data), bi))
      ensures Pc(dk.data) > 0 && Grown(old(nodes), nodes, PathNodes(Pc(dk.data), bi))
      ensures r.Err? ==> r.error == Exhausted && dk.sb.usedDbs == dk.data.count && Lookup(dk.data, nodes, bi) == None
      ensures r.Ok? ==> Holds(Map(), tree - 1, Root(tree)) && OnPath(Pc(dk.data), bi, Root(tree), offset)
    {
      hide Valid, Holds, Extended, OnPath, Span, TreeOf, Start, MaxBlocks, FileOk, Units, Times, Linked, Leaf,
        PathNodes, Grown, Lookup, Entry;
      ValidFacts(this, dk);
      ValidFile(this, dk);
      RootPtr(dk.data, dk.blocks, dk.freeBlocks, Map(), tree);
      PcPositive(this, dk);
      ghost var before, path, p := nodes, PathNodes(Pc(dk.data), bi), Root(tree);
      PathStart(Pc(dk.data), bi);
      DescentOnPath(Pc(dk.data), bi, p, offset);
      GrownSame(nodes, path);
      r := LoadPtrsAlloc(dk, tree, inode.ptrs[tree][0], Leaf(Pc(dk.data), bi));
      GrownOn(before, before, nodes, path, {p});
      if r.Err? {
        AbsentOnPath(this, dk, bi, p, offset);
      }
    }

    /** The indirect branch of `locate_alloc`. */
    method LocateAllocIndirect(dk: Donkey, bi: nat, tree: nat, offset: nat) returns (r: DkResult<nat>)
      requires Valid(dk) && dirty && bi < MaxBlocks(Pc(dk.data))
      requires IsTree(tree) && tree == TreeOf(Pc(dk.data), bi) && offset == bi - Start(Pc(dk.data), tree)
      modifies this`inode, this`cache, this`at, this`nodes, dk`dev, dk`sb, dk`blocks, dk`freeBlocks
      ensures Valid(dk) && Extended(old(St(dk)), St(dk), Leaf(Pc(dk.data), bi))
      ensures Pc(dk.data) > 0 && Grown(old(nodes), nodes, PathNodes(Pc(dk.data), bi))
      ensures r.Err? ==> r.error == Exhausted && dk.sb.usedDbs == dk.data.count && Lookup(dk.data, nodes, bi) == None
      ensures r.Ok? ==> Lookup(dk.data, nodes, bi) == Some(r.value)
    {
      hide Valid, Holds, Extended, OnPath, Span, TreeOf, Start, MaxBlocks, Pow, FileOk, Units, Times, Linked, Leaf,
        PathNodes, Grown, Lookup, Entry, Parent;
      ghost var s, leaf, p := St(dk), Leaf(Pc(dk.data), bi), Root(tree);
      var level: nat, off: nat := tree, offset;
      r := RootAlloc(dk, bi, tree, offset);
      if r.Err? {
        return;
      }
      BlockUnitOf(this, dk);
      ghost var path := PathNodes(Pc(dk.data), bi);
      var pc: nat, ipc: nat := dk.sb.blockSize / 8, Pow(dk.sb.blockSize / 8, level);
      SpanIsPow(pc, level);
      while level > 1
        invariant 1 <= level <= 4 && p.height == level && pc == Pc(dk.data) && ipc == Span(pc, level)
        invariant OnPath(pc, bi, p, off) && Holds(Map(), level - 1, p)
        invariant Valid(dk) && dirty && Extended(s, St(dk), leaf) && Grown(s.nodes, nodes, path)
        decreases level
      {
        PathStep(pc, bi, p, off, Span(pc, level - 1));
        ipc := ipc / pc;
        ghost var s1 := St(dk);
        var step := StepAlloc(dk, bi, level, off / ipc, off % ipc, p);
        Onward(s, s1, St(dk), leaf, path);
        if step.Err? {
          return Err(step.error);
        }
        p := Child(pc, p, off / ipc);
        off := off % ipc;
        level := level - 1;
      }
      ghost var s2 := St(dk);
      r := LeafAlloc(dk, bi, off, p);
      Onward(s, s2, St(dk), leaf, path);
    }

    // ----- Bytes -----

    /** `seek` to an absolute position; positions are signed 64-bit numbers there. */
    method SeekStart(start: nat) returns (r: DkResult<()>)
      modifies this`pos
      ensures start < 0x8000_0000_0000_0000 ==> r == Ok(()) && pos == start
      ensures start >= 0x8000_0000_0000_0000 ==> r == Err(InvalidInput) && pos == old(pos)
    {
      if start < SEEK_LIMIT {
        pos := start;
        return Ok(());
      }
      return Err(InvalidInput);
    }

    /**
     `dk_read` into a buffer of `len` bytes: up to the end of one block, the end of the file, or nothing in a hole.
     */
    method DkRead(dk: Donkey, len: nat) returns (r: seq<Byte>)
      requires Valid(dk) && (pos < inode.size ==> SizeOk(dk.data, pos + 1))
      modifies this`pos, this`cache, this`at, dk`dev, dk`blocks
      ensures Valid(dk) && Quiet(old(St(dk)), St(dk))
      ensures old(Clean(dk.blocks, Map())) ==> Clean(dk.blocks, Map())
      ensures |r| <= len && pos == old(pos) + |r| && (r != [] ==> pos <= inode.size)
      ensures forall i :: 0 <= i < |r| ==> ByteAt(dk.data, dk.blocks, nodes, old(pos) + i) == Some(r[i])
      ensures r == [] && len > 0 && old(pos) < inode.size ==> ByteAt(dk.data, dk.blocks, nodes, old(pos)) == None
    {
      hide Valid, Quiet, Leaf, MaxBlocks, Units, Times, BlockOfPos, Pc, DataOk, DataBlock, Lookup, Ptr, ByteAt,
        SizeOk, SystemOk, Owned, Clean;
      QuietSame(St(dk));
      BlockUnitOf(this, dk);
      if pos >= inode.size {
        return [];
      }
      InsideLimit(dk.data, pos + 1, pos);
      var b := BlockOfPos(pos, dk.sb.blockSize);
      var ptr := Locate(dk, b.0);
      BlockUnitOf(this, dk);
      LookupBlock(dk.data, nodes, b.0);
      if ptr.None? {
        HoleHere(dk.data, dk.blocks, nodes, pos);
        return [];
      }
      var n := Min(Min(dk.sb.blockSize - b.1, inode.size - pos), len);
      ghost var block := DataBlock(dk.data, nodes, b.0).value;
      OwnedBlock(this, dk, block);
      var bytes := dk.ReadBlock(ptr.value + b.1, n, block, b.1);
      r := bytes.value;
      BlockRead(dk.data, dk.blocks, nodes, pos, block, r);
      pos := pos + n;
    }

    /** The device is full and the block at the position is not mapped. */
    ghost predicate Stuck(dk: Donkey)
      reads this`pos, this`nodes, dk`sb
    {
      && dk.sb.usedDbs == dk.data.count && dk.data.unit > 0
      && var bi := BlockOfPos(pos, dk.data.unit).0;
        bi < MaxBlocks(Pc(dk.data)) && Leaf(Pc(dk.data), bi) !in nodes
    }

    lemma Ready(dk: Donkey)
      requires Valid(dk)
      ensures Pc(dk.data) > 0 && SizeOk(dk.data, 0)
    {
      hide FileOk, OwnsSlot, Saved;
      PcPositive(this, dk);
    }

    lemma NowStuck(dk: Donkey, bi: nat)
      requires dk.sb.usedDbs == dk.data.count && dk.data.unit > 0 && bi == BlockOfPos(pos, dk.data.unit).0
      requires bi < MaxBlocks(Pc(dk.data)) && Lookup(dk.data, nodes, bi) == None
      ensures Stuck(dk)
    {
    }

    /** `dk_write`: the part of `buf` that fits the current block. */
    method DkWrite(dk: Donkey, buf: seq<Byte>) returns (r: DkResult<nat>)
      requires Valid(dk) && buf != [] && SizeOk(dk.data, pos + |buf|)
      modifies this`inode, this`pos, this`dirty, this`cache, this`at, this`nodes, dk`dev, dk`sb, dk`blocks
      modifies dk`freeBlocks
      ensures Valid(dk) && dirty
      ensures r.Ok? ==> 0 < r.value <= |buf| && pos == old(pos) + r.value
      ensures r.Ok? ==> dk.data.unit > 0 && r.value == Min(dk.data.unit - BlockOfPos(old(pos), dk.data.unit).1, |buf|)
      ensures r.Ok? ==> Wrote(dk.data, old(St(dk)), St(dk), old(pos), buf[..r.value])
      ensures r.Ok? ==> GrewInside(dk.data, old(St(dk)), St(dk), old(pos), r.value)
      ensures r.Err? ==> r.error == Exhausted && pos == old(pos)
      ensures r.Err? ==>
        Wrote(dk.data, old(St(dk)), St(dk), pos, []) && GrewInside(dk.data, old(St(dk)), St(dk), pos, 0)
      ensures r.Err? ==> Stuck(dk)
      ensures dk.data.unit > 0 && Pc(dk.data) > 0 && BlockOfPos(old(pos), dk.data.unit).0 < MaxBlocks(Pc(dk.data))
      ensures Grown(old(nodes), nodes, PathNodes(Pc(dk.data), BlockOfPos(old(pos), dk.data.unit).0))
    {
      hide Valid, Extended, Wrote, GrewInside, Leaf, MaxBlocks, Pc, BlockOfPos, Times, Units, FileOk, SystemOk,
        DataBlock, Lookup, Ptr, SizeOk, Splice, Shape, Owned, UnitsSized, Grown, PathNodes, Stuck;
      ghost var s, a := St(dk), dk.data;
      MarkDirty(dk);
      BlockUnitOf(this, dk);
      ValidBlocks(this, dk);
      InsideLimit(a, pos + |buf|, pos);
      var b := BlockOfPos(pos, dk.sb.blockSize);
      var ptr := LocateAlloc(dk, b.0);
      ghost var t := St(dk);
      BlockUnitOf(this, dk);
      ValidBlocks(this, dk);
      LookupBlock(a, nodes, b.0);
      if ptr.Err? {
        ExtendedNoWrite(a, s, t, b.0, pos);
        NowStuck(dk, b.0);
        return Err(ptr.error);
      }
      ghost var n := DataBlock(a, nodes, b.0).value;
      OwnedBlock(this, dk, n);
      DataBlockLeaf(a, nodes, b.0);
      var len := Min(dk.sb.blockSize - b.1, |buf|);
      var data := buf[..len];
      WriteLeaf(dk, ptr.value + b.1, data, Leaf(Pc(a), b.0), n, b.1);
      ghost var start := pos;
      pos := pos + len;
      ghost var grown := nodes;
      if pos > inode.size {
        UpdateSize(dk, pos);
      }
      assert nodes == grown;
      BlockWrite(a, s, t, St(dk), start, data, b.0, b.1);
      return Ok(len);
    }

    method MarkDirty(dk: Donkey)
      requires Valid(dk)
      modifies this`dirty
      ensures Valid(dk) && dirty
    {
      hide SystemOk, FileOk, Clean, InodeFits, InodeIn;
      dirty := true;
    }

    /** `dk.write` into a data or xattr block of the file. */
    method WriteLeaf(dk: Donkey, ptr: nat, bytes: seq<Byte>, ghost p: Pos, ghost n: nat, ghost off: nat)
      requires Valid(dk) && dirty && p in nodes && p.height == 0 && nodes[p] == n
      requires ptr == Ptr(dk.data, n) + off && off + |bytes| <= dk.data.unit
      modifies dk`dev, dk`blocks
      ensures Valid(dk) && n < |old(dk.blocks)| && off + |bytes| <= |old(dk.blocks)[n]|
      ensures dk.blocks == old(dk.blocks)[n := Splice(old(dk.blocks)[n], off, bytes)]
      ensures Clean(old(dk.blocks), Map()) ==> Clean(dk.blocks, Map())
    {
      hide Valid, FileOk, SystemOk, Splice, Ptr, Units, Clean, OwnsSlot;
      ValidParts(this, dk);
      NodeOwned(nodes, p);
      OwnedBlock(this, dk, n);
      LeafWrite(dk.data, dk.blocks, dk.freeBlocks, Map(), p, Splice(dk.blocks[n], off, bytes));
      var _ := dk.WriteBlock(ptr, bytes, n, off);
      ValidBuild(this, dk);
    }

    /**
     `Handle::read`: the buffers that `read_to_end` passes down have arbitrary positive sizes, and reading
     goes on until one call returns nothing or `size` bytes are there.
     */
    method Read(dk: Donkey, offset: nat, size: nat) returns (r: DkResult<seq<Byte>>)
      requires Valid(dk) && (offset < inode.size ==> SizeOk(dk.data, Min(offset + size, inode.size)))
      modifies this`pos, this`cache, this`at, dk`dev, dk`blocks
      ensures Valid(dk) && Quiet(old(St(dk)), St(dk))
      ensures old(Clean(dk.blocks, Map())) ==> Clean(dk.blocks, Map())
      ensures offset >= SEEK_LIMIT ==> r == Err(InvalidInput)
      ensures offset < SEEK_LIMIT ==>
        r.Ok? && IsRead(dk.data, old(dk.blocks), nodes, inode.size, offset, size, r.value) && pos == offset + |r.value|
    {
      hide Valid, Quiet, ByteAt, SizeOk, Clean;
      ghost var s, a, clean := St(dk), dk.data, Clean(dk.blocks, Map());
      QuietSame(s);
      var seek := SeekStart(offset);
      if seek.Err? {
        return Err(seek.error);
      }
      var v: seq<Byte> := [];
      QuietBytes(a, s, s);
      while |v| < size
        invariant |v| <= size && pos == offset + |v| && (v != [] ==> pos <= inode.size)
        invariant Valid(dk) && Quiet(s, St(dk)) && (clean ==> Clean(dk.blocks, Map()))
        invariant forall i :: 0 <= i < |v| ==> ByteAt(a, s.blocks, nodes, offset + i) == Some(v[i])
        decreases size - |v|
      {
        var len :| 1 <= len <= size - |v|;
        ghost var t := St(dk);
        if pos < inode.size {
          SmallerSize(a, pos + 1, Min(offset + size, inode.size));
        }
        var chunk := DkRead(dk, len);
        QuietTrans(s, t, St(dk));
        QuietBytes(a, s, St(dk));
        if chunk == [] {
          return Ok(v);
        }
        ReadOn(a, s.blocks, nodes, offset, v, chunk);
        v := v + chunk;
      }
      return Ok(v);
    }

    /**
     `write_all` at the position: all of `data` is written, or the device is full and only the first `done` bytes are.
     Nodes are added on the paths to the written range only.
     */
    method WriteAll(dk: Donkey, data: seq<Byte>) returns (r: DkResult<()>, ghost done: nat)
      requires Valid(dk) && SizeOk(dk.data, pos + |data|)
      modifies this`inode, this`pos, this`dirty, this`cache, this`at, this`nodes, dk`dev, dk`sb, dk`blocks
      modifies dk`freeBlocks
      ensures Valid(dk) && Pc(dk.data) > 0 && done <= |data| && pos == old(pos) + done
      ensures old(dirty) || done > 0 ==> dirty
      ensures r.Ok? <==> done == |data|
      ensures r.Err? ==> r.error == Exhausted && Stuck(dk)
      ensures Wrote(dk.data, old(St(dk)), St(dk), old(pos), data[..done])
      ensures GrewInside(dk.data, old(St(dk)), St(dk), old(pos), done)
      ensures Grown(old(nodes), nodes, Needed(dk.data, old(pos), |data|))
    {
      hide Valid, Wrote, GrewInside, SizeOk, Times, MaxBlocks, Grown, Needed, Stuck, BlockOfPos, PathNodes;
      ghost var s, a, offset := St(dk), dk.data, pos;
      WroteNothing(a, s, offset);
      PcPositive(this, dk);
      ghost var need := Needed(a, offset, |data|);
      GrownSame(nodes, need);
      done := 0;
      assert data[..done] == [];
      var k: nat := 0;
      while k < |data|
        invariant done == k <= |data| && pos == offset + k && (old(dirty) || k > 0 ==> dirty)
        invariant Valid(dk) && Wrote(a, s, St(dk), offset, data[..k]) && GrewInside(a, s, St(dk), offset, k)
        invariant Grown(s.nodes, nodes, need)
        decreases |data| - k
      {
        ghost var t := St(dk);
        ByteNeeds(a, offset, |data|, pos);
        ghost var path := PathNodes(Pc(a), BlockOfPos(pos, a.unit).0);
        var n := DkWrite(dk, data[k..]);
        GrownOn(s.nodes, t.nodes, nodes, need, path);
        if n.Err? {
          WroteOn(a, s, t, St(dk), offset, data[..k], []);
          GrewOn(a, s, t, St(dk), offset, k, 0);
          assert data[..k] + [] == data[..k];
          return Err(n.error), done;
        }
        WroteOn(a, s, t, St(dk), offset, data[..k], data[k..][..n.value]);
        GrewOn(a, s, t, St(dk), offset, k, n.value);
        assert data[..k] + data[k..][..n.value] == data[..k + n.value];
        k := k + n.value;
        done := k;
      }
      return Ok(()), done;
    }

    /**
     `Handle::write`: all of `data` is written exactly when the nodes that its range still misses are no more than the
     free blocks; otherwise only the first `done` bytes are.
     */
    method Write(dk: Donkey, offset: nat, data: seq<Byte>) returns (r: DkResult<nat>, ghost done: nat)
      requires Valid(dk) && SizeOk(dk.data, offset + |data|)
      modifies this`inode, this`pos, this`dirty, this`cache, this`at, this`nodes, dk`dev, dk`sb, dk`blocks
      modifies dk`freeBlocks
      ensures Valid(dk) && Pc(dk.data) > 0
      ensures offset >= SEEK_LIMIT ==> r == Err(InvalidInput) && done == 0 && St(dk) == old(St(dk))
      ensures offset < SEEK_LIMIT ==>
        (r.Ok? <==> Missing(dk.data, old(nodes), offset, |data|) <= dk.data.count - old(dk.sb).usedDbs)
      ensures r.Ok? ==> r.value == done == |data| && pos == offset + |data|
      ensures r.Err? && offset < SEEK_LIMIT ==> r.error == Exhausted && done < |data|
      ensures done <= |data| && Wrote(dk.data, old(St(dk)), St(dk), offset, data[..done])
      ensures GrewInside(dk.data, old(St(dk)), St(dk), offset, done)
    {
      hide Valid, Wrote, GrewInside, SizeOk, MaxBlocks, Grown, Needed, Stuck, Missing;
      ghost var s, a := St(dk), dk.data;
      PcPositive(this, dk);
      WroteNothing(a, s, offset);
      var seek := SeekStart(offset);
      if seek.Err? {
        assert data[..0] == [];
        return Err(seek.error), 0;
      }
      var w;
      w, done := WriteAll(dk, data);
      SpaceUsed(this, dk);
      if w.Err? {
        FailedWrite(this, dk, s, offset, data, done);
        return Err(w.error), done;
      }
      assert data[..done] == data;
      EnoughFree(a, s, St(dk), offset, data);
      return Ok(|data|), done;
    }

    // ----- Flush -----

    /** `write_ptr_cache`. */
    method WritePtrCache(dk: Donkey)
      requires Valid(dk) && dirty
      modifies dk`dev, dk`blocks
      ensures Valid(dk) && Quiet(old(St(dk)), St(dk)) && dk.blocks == Overlay(old(dk.blocks), Map())
      ensures Clean(dk.blocks, Map())
    {
      hide Valid, FileOk, SystemOk, Evicted, Quiet, Units, OwnsSlot, SlotClean;
      ghost var s, f := St(dk), Map();
      ValidParts(this, dk);
      FileLengths(dk.data, dk.blocks, dk.freeBlocks, f);
      QuietSame(s);
      var h: nat := 0;
      while h < 4
        invariant h <= 4 && dk.Valid() && Quiet(s, St(dk)) && FileOk(dk.data, dk.blocks, dk.freeBlocks, f)
        invariant dk.blocks == OverlayTo(s.blocks, f, h)
        invariant forall k :: 0 <= k < h ==> SlotClean(dk.blocks, f, k)
      {
        ghost var t := St(dk);
        EvictStep(dk.data, t, f, h);
        EvictOthers(dk.data, t.blocks, dk.freeBlocks, f, h);
        WriteBack(dk, h, f);
        QuietTrans(s, t, St(dk));
        h := h + 1;
      }
      OverlayAll(s.blocks, f);
      ValidBuild(this, dk);
    }

    /**
     `write_xattr`: the attributes go to their own block, to be read back exactly when no name is empty. The source does
     not check that they fit it: a longer stream is spliced into the device behind that block, over whatever is there.
     */
    method WriteXattr(dk: Donkey) returns (r: DkResult<()>, ghost data: seq<Byte>, ghost dev: seq<Byte>)
      requires Valid(dk) && dirty && Clean(dk.blocks, Map())
      modifies this`inode, this`nodes, dk`dev, dk`sb, dk`blocks, dk`freeBlocks
      ensures XattrOnly(old(St(dk)), St(dk))
      ensures |data| <= dk.data.unit || r.Err? ==> Valid(dk) && Clean(dk.blocks, Map())
      ensures r.Err? ==>
        (r.error == Exhausted && dk.sb.usedDbs == dk.data.count) || (r.error == Corrupted && |data| > dk.data.unit)
      ensures data == [] || XattrData(data, xattr)
      ensures r.Ok? ==> XattrData(data, xattr) && (XATTR_POS in nodes <==> xattr != map[])
      ensures r.Ok? && |data| <= dk.data.unit && AttrsSized(xattr) ==>
        (Stored(dk.blocks, nodes) == Ok(xattr) <==> [] !in xattr)
      ensures r.Ok? && |data| > dk.data.unit ==> OwnsSlot(dk) && Spilled(dk, dev, inode.xattrPtr, data)
      ensures Slack() == old(Slack()) + if XATTR_POS in old(nodes) && XATTR_POS !in nodes then 1 else 0
      ensures inode.blocks == old(inode).blocks + Added(old(nodes), nodes)
    {
      hide Valid, FileOk, SystemOk, Units, OwnsSlot, Clean, XattrOnly, Stored, IsAttrStream, Spilled;
      ghost var s := St(dk);
      XattrNow(this, dk);
      XattrSame(s);
      data, dev := [], dk.dev;
      if xattr == map[] {
        if inode.xattrPtr != 0 {
          FreeXattr(dk);
        }
        NothingStored(dk.blocks, nodes);
        return Ok(()), data, dev;
      }
      if inode.xattrPtr == 0 {
        r := AllocXattr(dk);
        if r.Err? {
          return r, data, dev;
        }
      }
      ghost var t := St(dk);
      dev := dk.dev;
      r, data := StoreXattr(dk);
      XattrOnlyTrans(s, t, St(dk));
    }

    /** The write in `write_xattr`: the same bytes go to the same place, whether they fit the block or not. */
    method StoreXattr(dk: Donkey) returns (r: DkResult<()>, ghost data: seq<Byte>)
      requires Valid(dk) && dirty && Clean(dk.blocks, Map()) && XATTR_POS in nodes
      modifies dk`dev, dk`blocks
      ensures IsAttrStream(data, xattr) && XattrOnly(old(St(dk)), St(dk))
      ensures |data| <= dk.data.unit || r.Err? ==> Valid(dk) && Clean(dk.blocks, Map())
      ensures |data| <= dk.data.unit ==> r == Ok(())
      ensures |data| <= dk.data.unit && AttrsSized(xattr) ==> (Stored(dk.blocks, nodes) == Ok(xattr) <==> [] !in xattr)
      ensures r.Err? ==> r.error == Corrupted
      ensures |data| > dk.data.unit && r.Ok? ==> OwnsSlot(dk) && Spilled(dk, old(dk.dev), inode.xattrPtr, data)
    {
      hide Valid, FileOk, SystemOk, Units, Clean, XattrOnly, Stored, IsAttrStream, Splice, AttrsSized, InodeShaped;
      ghost var s := St(dk);
      var bytes := SerializeAttrs(xattr);
      data := bytes;
      ValidParts(this, dk);
      XattrSame(s);
      SpillStart(this, dk);
      if |bytes| <= dk.sb.blockSize {
        PutXattr(dk, bytes);
        r := Ok(());
      } else {
        r := dk.WriteAt(inode.xattrPtr, bytes);
        if r.Err? {
          ValidBuild(this, dk);
        }
      }
    }

    /** A stream that fits the block. */
    method PutXattr(dk: Donkey, bytes: seq<Byte>)
      requires Valid(dk) && dirty && Clean(dk.blocks, Map()) && XATTR_POS in nodes
      requires |bytes| <= dk.data.unit && IsAttrStream(bytes, xattr)
      modifies dk`dev, dk`blocks
      ensures Valid(dk) && Clean(dk.blocks, Map()) && XattrOnly(old(St(dk)), St(dk))
      ensures AttrsSized(xattr) ==> (Stored(dk.blocks, nodes) == Ok(xattr) <==> [] !in xattr)
    {
      hide Valid, FileOk, SystemOk, Units, Clean, XattrOnly, Stored, IsAttrStream, Splice, Ptr, Shape, AttrsSized;
      ghost var s := St(dk);
      XattrNow(this, dk);
      ValidBlocks(this, dk);
      XattrSame(s);
      WriteLeaf(dk, inode.xattrPtr, bytes, XATTR_POS, nodes[XATTR_POS], 0);
      NodesApart(dk.data, nodes);
      XattrWritten(s, s, St(dk));
      if AttrsSized(xattr) {
        StoredStream(dk.blocks, nodes, s.blocks[nodes[XATTR_POS]], bytes, xattr);
      }
    }

    /** `read_xattr`: the stream in the block that the inode names. */
    method ReadXattr(dk: Donkey) returns (r: DkResult<()>)
      requires xattr == map[]
      modifies this`xattr
      ensures inode.xattrPtr == 0 ==> r == Ok(()) && xattr == map[]
      ensures inode.xattrPtr != 0 && inode.xattrPtr + dk.sb.blockSize > |dk.dev| ==> r == Err(Corrupted)
      ensures inode.xattrPtr != 0 && inode.xattrPtr + dk.sb.blockSize <= |dk.dev| ==>
        match ParseAttrs(dk.dev[inode.xattrPtr..inode.xattrPtr + dk.sb.blockSize])
        case Ok(found) => r == Ok(()) && xattr == found
        case Err(e) => r == Err(e)
    {
      hide ParseAttrs;
      if inode.xattrPtr != 0 {
        var bytes := dk.ReadLenAt(inode.xattrPtr, dk.sb.blockSize);
        if bytes.Err? {
          return Err(bytes.error);
        }
        var found := ReadAttrs(bytes.value);
        if found.Err? {
          return Err(found.error);
        }
        xattr := found.value;
      }
      return Ok(());
    }

    /** The release in `write_xattr`; it does not lower the block counter. */
    method FreeXattr(dk: Donkey)
      requires Valid(dk) && dirty && Clean(dk.blocks, Map()) && XATTR_POS in nodes
      modifies this`inode, this`nodes, dk`dev, dk`sb, dk`blocks, dk`freeBlocks
      ensures Valid(dk) && Clean(dk.blocks, Map()) && XattrOnly(old(St(dk)), St(dk)) && XATTR_POS !in nodes
      ensures inode == old(inode).(xattrPtr := 0) && Slack() == old(Slack()) + 1
    {
      hide Valid, FileOk, SystemOk, Units, OwnsSlot, Clean, XattrOnly, Ptr, Owned;
      ghost var s, f, n := St(dk), Map(), nodes[XATTR_POS];
      ValidParts(this, dk);
      XattrNow(this, dk);
      NodeOwned(nodes, XATTR_POS);
      OwnedBlock(this, dk, n);
      var _ := dk.FreeDb(inode.xattrPtr, n);
      inode := inode.(xattrPtr := 0);
      nodes := nodes - {XATTR_POS};
      UnitsSizedNow(dk);
      XattrRemove(dk.data, s, f, St(dk));
      OneLess(s.nodes, XATTR_POS);
      assert Map() == f.(xattrPtr := 0, nodes := nodes);
      XattrShrinks(s, St(dk));
      ValidBuild(this, dk);
    }

    /** The allocation in `write_xattr`. */
    method AllocXattr(dk: Donkey) returns (r: DkResult<()>)
      requires Valid(dk) && dirty && Clean(dk.blocks, Map()) && XATTR_POS !in nodes
      modifies this`inode, this`nodes, dk`dev, dk`sb, dk`blocks, dk`freeBlocks
      ensures Valid(dk) && Clean(dk.blocks, Map()) && XattrOnly(old(St(dk)), St(dk))
      ensures r.Err? ==> r.error == Exhausted && dk.sb.usedDbs == dk.data.count
      ensures r.Ok? ==> XATTR_POS in nodes
      ensures Slack() == old(Slack()) && inode.blocks == old(inode).blocks + Added(old(nodes), nodes)
    {
      hide Valid, FileOk, SystemOk, Units, OwnsSlot, Clean, XattrOnly, Alloced, Ptr, Carve, Times;
      ghost var s, f := St(dk), Map();
      ValidParts(this, dk);
      XattrSame(s);
      var ptr := dk.AllocateDb();
      if ptr.Err? {
        ValidBuild(this, dk);
        return Err(ptr.error);
      }
      ghost var n := s.free[0].first;
      XattrAdd(dk.data, s, f, dk.blocks, dk.freeBlocks, n);
      inode := inode.(xattrPtr := ptr.value, blocks := inode.blocks + 1);
      nodes := nodes[XATTR_POS := n];
      assert Map() == f.(xattrPtr := ptr.value, nodes := nodes);
      assert inode == s.inode.(blocks := s.inode.blocks + 1, xattrPtr := ptr.value);
      ValidBuild(this, dk);
      return Ok(());
    }

    /**
     `flush`: afterwards the file could be dropped; it does nothing when the file is clean or unlinked. Attributes that
     do not fit one block are written all the same, over what follows their block; the ghost view of the blocks then is
     what the device held before.
     */
    method Flush(dk: Donkey) returns (r: DkResult<()>, ghost data: seq<Byte>)
      requires Valid(dk)
      modifies this`inode, this`nodes, this`dirty, dk`dev, dk`sb, dk`blocks, dk`freeBlocks, dk`slots
      ensures |data| <= dk.data.unit || r.Err? ==> Valid(dk)
      ensures XattrOnly(old(St(dk)), St(dk))
      ensures r.Ok? && (old(dirty) ==> inode.nlink > 0) ==> !dirty
      ensures old(inode).nlink == 0 || !old(dirty) ==>
        r == Ok(()) && data == [] && St(dk) == old(St(dk)) && dirty == old(dirty)
      ensures r.Err? ==> dirty && (r.error == Exhausted || (r.error == Corrupted && |data| > dk.data.unit))
      ensures Slack() == old(Slack()) + if XATTR_POS in old(nodes) && XATTR_POS !in nodes then 1 else 0
      ensures inode.blocks == old(inode).blocks + Added(old(nodes), nodes)
      ensures data == [] || XattrData(data, xattr)
      ensures r.Ok? && old(inode).nlink > 0 && old(dirty) ==> XattrData(data, xattr)
      ensures r.Ok? && old(inode).nlink > 0 && old(dirty) && |data| <= dk.data.unit && AttrsSized(xattr) ==>
        (Stored(dk.blocks, nodes) == Ok(xattr) <==> [] !in xattr)
      ensures r.Ok? && |data| > dk.data.unit ==> Overrun(dk, inode, data)
    {
      hide Valid, FileOk, SystemOk, Units, Clean, XattrOnly, Quiet, Stored, XattrData, Spilled, OwnsSlot, Overrun;
      ghost var s := St(dk);
      XattrSame(s);
      data := [];
      if dirty && inode.nlink > 0 {
        WritePtrCache(dk);
        ghost var t, dev := St(dk), dk.dev;
        QuietXattr(s, t);
        r, data, dev := WriteXattr(dk);
        XattrOnlyTrans(s, t, St(dk));
        XattrInode(s, St(dk));
        if r.Err? {
          return;
        }
        SaveInode(dk, data, dev);
      }
      return Ok(()), data;
    }

    /** The last step of `flush`: the inode is written. */
    method SaveInode(dk: Donkey, ghost data: seq<Byte>, ghost dev: seq<Byte>)
      requires |data| <= dk.data.unit ==> Valid(dk) && Clean(dk.blocks, Map())
      requires |data| > dk.data.unit ==> OwnsSlot(dk) && Spilled(dk, dev, inode.xattrPtr, data)
      modifies this`dirty, dk`dev, dk`slots
      ensures !dirty
      ensures |data| <= dk.data.unit ==> Valid(dk)
      ensures |data| > dk.data.unit ==> Overrun(dk, inode, data)
    {
      hide Valid, FileOk, SystemOk, Units, Clean, InodeFits, InodeBytes, InodeIn, Splice, Spilled;
      if |data| <= dk.data.unit {
        ValidParts(this, dk);
        SlotSized(this, dk);
        InodeSaved(dk.slots[inode.ino - ROOT_INODE], inode);
      } else {
        SlotWritten(dk, dev, inode, data);
      }
      var _ := dk.WriteInode(inode);
      dirty := false;
      if |data| <= dk.data.unit {
        ValidSaved(this, dk);
      }
    }

    // ----- Release -----

    /** `dk.free_db(ptr)?; self.inode.blocks -= 1`; the counter cannot underflow. */
    method FreeNode(dk: Donkey, ptr: nat, ghost p: Pos, ghost s: State, ghost f: FileMap, ghost freed: set<Pos>)
      requires Releasing(dk, inode.blocks, s, f, freed) && p in s.nodes && p !in freed
      requires ptr == Ptr(dk.data, s.nodes[p])
      modifies this`inode, dk`dev, dk`sb, dk`blocks, dk`freeBlocks
      ensures Releasing(dk, inode.blocks, s, f, freed + {p})
      ensures old(inode).blocks > 0 && inode == old(inode).(blocks := old(inode).blocks - 1)
    {
      hide Partial, SystemOk, Ptr, Links, Roots, CacheOk, Clean, Units, Times, Shape;
      ghost var t := Now(dk, inode.blocks, s);
      PartialNode(dk.data, s, t, freed, p);
      PartialCounts(s, t, freed);
      BlockSized(dk, s.nodes[p]);
      var _ := dk.FreeDb(ptr, s.nodes[p]);
      BlockSized(dk, s.nodes[p]);
      inode := inode.(blocks := inode.blocks - 1);
      PartialStep(dk.data, s, t, Now(dk, inode.blocks, s), freed, p);
    }

    /**
     `clear_pointers_rec`: frees every node below `p` whose first block index is at least `from`, each once,
     and tells whether `p` itself is to be freed.
     */
    method ClearPointersRec(dk: Donkey, from: nat, start: nat, ptr: nat, level: nat, ghost p: Pos,
                            ghost s: State, ghost f: FileMap, ghost before: set<Pos>)
      returns (r: bool, ghost freed: set<Pos>)
      requires Releasing(dk, inode.blocks, s, f, before)
      requires IsTree(p.tree) && p.height == level <= p.tree && ptr == Entry(dk.data, s.nodes, p)
      requires start == First(Pc(dk.data), p)
      requires forall q :: q in before ==> !Under(Pc(dk.data), q, p) && q != p
      modifies this`inode, dk`dev, dk`sb, dk`blocks, dk`freeBlocks
      ensures Releasing(dk, inode.blocks, s, f, freed)
      ensures freed == before + DoomedUnder(Pc(dk.data), s.nodes, p, from, start + Span(Pc(dk.data), level))
      ensures r <==> p in s.nodes && from <= start
      ensures inode == old(inode).(blocks := inode.blocks)
      decreases level, 0
    {
      hide Releasing, Ptr, Units, Times, First, Span, Words, Under, DoomedUnder, Linked, SystemOk, Shape, FromWords;
      freed := before;
      ReleasingFacts(dk, inode.blocks, s, f, before);
      EntryZero(dk.data, s.nodes, p);
      if ptr == 0 {
        DoomedAbsent(dk.data, s.nodes, p, from);
        return false, freed;
      }
      ghost var a, n := dk.data, s.nodes[p];
      var pc: nat := dk.sb.blockSize / 8;
      var len := Pow(pc, level);
      if level >= 1 {
        SpanQuotient(pc, level);
        var sublen := len / pc;
        var index: nat := start;
        ReleasingNode(dk, inode.blocks, s, f, before, p);
        var bytes := dk.ReadBlock(ptr, dk.sb.blockSize, n, 0);
        var words := Words(bytes.value);
        var i: nat := 0;
        DoomedAll(pc, p);
        DoomedNone(pc, s.nodes, p, from);
        while i < |words|
          invariant i <= |words| == pc == Pc(dk.data) && Linked(a, s.nodes, p, words)
          invariant Releasing(dk, inode.blocks, s, f, freed) && index == First(pc, Child(pc, p, i))
          invariant freed == before + DoomedUnder(pc, s.nodes, p, from, index)
          invariant inode == old(inode).(blocks := inode.blocks)
        {
          LinkedAt(a, s.nodes, p, words, i);
          freed := ClearChild(dk, from, index, words[i], level - 1, p, i, s, f, before, freed);
          index := index + sublen;
          i := i + 1;
        }
      } else {
        DoomedLeaf(pc, s.nodes, p, from, start + Span(pc, level));
      }
      return from <= start, freed;
    }

    /** One round of the loop in `clear_pointers_rec`: child `i` of `p`, and what is below it. */
    method ClearChild(dk: Donkey, from: nat, start: nat, ptr: nat, level: nat, ghost p: Pos, ghost i: nat,
                      ghost s: State, ghost f: FileMap, ghost before: set<Pos>, ghost done: set<Pos>)
      returns (ghost freed: set<Pos>)
      requires Releasing(dk, inode.blocks, s, f, done) && DataOk(dk.data) && Shape(dk.data, s.nodes)
      requires IsTree(p.tree) && p.height == level + 1 <= p.tree && i < Pc(dk.data)
      requires var c := Child(Pc(dk.data), p, i); ptr == Entry(dk.data, s.nodes, c) && start == First(Pc(dk.data), c)
      requires forall q :: q in before ==> !Under(Pc(dk.data), q, p) && q != p
      requires done == before + DoomedUnder(Pc(dk.data), s.nodes, p, from, start)
      modifies this`inode, dk`dev, dk`sb, dk`blocks, dk`freeBlocks
      ensures Releasing(dk, inode.blocks, s, f, freed)
      ensures First(Pc(dk.data), Child(Pc(dk.data), p, i + 1)) == start + Span(Pc(dk.data), level)
      ensures freed == before + DoomedUnder(Pc(dk.data), s.nodes, p, from, start + Span(Pc(dk.data), level))
      ensures inode == old(inode).(blocks := inode.blocks)
      decreases level, 1
    {
      hide Releasing, Ptr, Units, Times, First, Span, Under, DoomedUnder, Shape;
      ghost var pc, c := Pc(dk.data), Child(Pc(dk.data), p, i);
      BeforeChildren(dk.data, s.nodes, p, i, from, before, done);
      var clear;
      clear, freed := ClearPointersRec(dk, from, start, ptr, level, c, s, f, done);
      if clear {
        ChildNotFreed(pc, s.nodes, c, from, done, start + Span(pc, level));
        FreeNode(dk, ptr, c, s, f, freed);
        freed := freed + {c};
      }
      DoomedRound(dk.data, s.nodes, p, i, from, before, done, freed);
    }

    /** The loop of `free_file_db` over the direct pointers. */
    method FreeDirect(dk: Donkey, ghost s: State, ghost f: FileMap) returns (ghost freed: set<Pos>)
      requires Releasing(dk, inode.blocks, s, f, {}) && inode.ptrs == f.ptrs && PtrsShaped(inode.ptrs)
      modifies this`inode, dk`dev, dk`sb, dk`blocks, dk`freeBlocks
      ensures Releasing(dk, inode.blocks, s, f, freed) && freed == DirectBefore(s.nodes, DIRECT)
      ensures inode == old(inode).(blocks := inode.blocks, ptrs := inode.ptrs)
      ensures DirectCleared(f.ptrs, inode.ptrs, DIRECT)
    {
      hide Releasing, Ptr, Units, Times, DirectBefore, Shape, DirectCleared, WithPtr;
      freed := {};
      ReleasingNodes(dk, inode.blocks, s, f, freed);
      DirectDone(Pc(dk.data), s.nodes, 0);
      ClearedStart(Pc(dk.data), inode.ptrs, 0);
      var bi: nat := 0;
      while bi < 12
        invariant bi <= 12 && Releasing(dk, inode.blocks, s, f, freed) && freed == DirectBefore(s.nodes, bi)
        invariant inode == old(inode).(blocks := inode.blocks, ptrs := inode.ptrs)
        invariant PtrsShaped(inode.ptrs) && DirectCleared(f.ptrs, inode.ptrs, bi)
      {
        DirectStep(Pc(dk.data), s.nodes, bi);
        TopWord(dk, inode.blocks, s, f, freed, Pos(0, 0, bi));
        DirectClear(f.ptrs, inode.ptrs, bi);
        if inode.ptrs[0][bi] > 0 {
          FreeNode(dk, inode.ptrs[0][bi], Pos(0, 0, bi), s, f, freed);
          freed := freed + {Pos(0, 0, bi)};
          inode := inode.(ptrs := WithPtr(inode.ptrs, 0, bi, 0));
        }
        bi := bi + 1;
      }
    }

    /** The loop of `free_file_db` over the four trees. */
    method FreeTrees(dk: Donkey, from: nat, ghost s: State, ghost f: FileMap, ghost before: set<Pos>)
      returns (ghost freed: set<Pos>)
      requires Releasing(dk, inode.blocks, s, f, before) && before == DoomedBefore(Pc(dk.data), s.nodes, from, 1)
      requires PtrsShaped(inode.ptrs) && PtrsShaped(f.ptrs) && forall t :: 1 <= t <= 4 ==> inode.ptrs[t] == f.ptrs[t]
      modifies this`inode, dk`dev, dk`sb, dk`blocks, dk`freeBlocks
      ensures Releasing(dk, inode.blocks, s, f, freed) && freed == DoomedBefore(Pc(dk.data), s.nodes, from, 5)
      ensures inode == old(inode).(blocks := inode.blocks, ptrs := inode.ptrs)
      ensures TreesCleared(Pc(dk.data), old(inode).ptrs, inode.ptrs, from, 5)
    {
      hide Releasing, Ptr, Units, Times, DoomedBefore, Shape, Span, Under, First, DoomedUnder, TreesCleared, WithPtr,
        Start, SystemOk, Pow, DataOk;
      freed := before;
      ReleasingFacts(dk, inode.blocks, s, f, freed);
      var pc: nat := dk.sb.blockSize / 8;
      StartOne(pc);
      ClearedStart(pc, inode.ptrs, from);
      ghost var ptrs := inode.ptrs;
      var start: nat := 12;
      var i: nat := 1;
      while i <= 4
        invariant 1 <= i <= 5 && pc == Pc(dk.data) && start == Start(pc, i)
        invariant Releasing(dk, inode.blocks, s, f, freed) && freed == DoomedBefore(pc, s.nodes, from, i)
        invariant inode == old(inode).(blocks := inode.blocks, ptrs := inode.ptrs)
        invariant PtrsShaped(inode.ptrs) && TreesCleared(pc, ptrs, inode.ptrs, from, i)
      {
        TreeStep(dk.data, s.nodes, from, i);
        TopWord(dk, inode.blocks, s, f, freed, Root(i));
        TreeClear(pc, ptrs, inode.ptrs, from, i);
        var clear: bool;
        clear, freed := ClearPointersRec(dk, from, start, inode.ptrs[i][0], i, Root(i), s, f, freed);
        if clear {
          FreeNode(dk, inode.ptrs[i][0], Root(i), s, f, freed);
          freed := freed + {Root(i)};
          inode := inode.(ptrs := WithPtr(inode.ptrs, i, 0, 0));
        }
        SpanIsPow(pc, i);
        StartNext(pc, i);
        start := start + Pow(pc, i);
        i := i + 1;
      }
    }

    /** Both loops of `free_file_db`. */
    method FreeDoomed(dk: Donkey, from: nat, ghost s: State, ghost f: FileMap) returns (ghost freed: set<Pos>)
      requires Releasing(dk, inode.blocks, s, f, {}) && inode.ptrs == f.ptrs && PtrsShaped(inode.ptrs)
      modifies this`inode, dk`dev, dk`sb, dk`blocks, dk`freeBlocks
      ensures Releasing(dk, inode.blocks, s, f, freed) && freed == Doomed(Pc(dk.data), s.nodes, from)
      ensures inode == old(inode).(blocks := inode.blocks, ptrs := inode.ptrs)
      ensures PtrsCleared(dk.data, f, inode.ptrs, from) && PtrsShaped(inode.ptrs)
    {
      hide Releasing, PtrsCleared, DirectCleared, TreesCleared, DirectBefore, DoomedBefore, Doomed;
      ghost var a := dk.data;
      ReleasingNodes(dk, inode.blocks, s, f, {});
      ClearedStart(Pc(a), inode.ptrs, 0);
      DirectDone(Pc(a), s.nodes, from);
      freed := {};
      if from < 12 {
        freed := FreeDirect(dk, s, f);
      }
      ghost var mid := inode.ptrs;
      DirectRest(f.ptrs, mid, if from < DIRECT then DIRECT else 0);
      freed := FreeTrees(dk, from, s, f, freed);
      AllCleared(a, f, mid, inode.ptrs, from);
    }

    /**
     `free_file_db` on a file whose cache holds nothing the disk does not. The file is valid afterwards exactly when
     no surviving pointer block has a freed child and no freed pointer block is still in the cache.
     */
    method FreeFileDb(dk: Donkey, from: nat)
      requires Valid(dk) && Clean(dk.blocks, Map())
      modifies this`inode, this`nodes, dk`dev, dk`sb, dk`blocks, dk`freeBlocks
      ensures dk.Valid() && Cut(dk.data, old(St(dk)), old(Map()), St(dk), from)
      ensures dirty ==> (Valid(dk) <==> SafeCut(dk.data, old(Map()), from))
      ensures NoStale(Pc(dk.data), old(Map()), from) ==> Clean(dk.blocks, Map())
    {
      hide Valid, Releasing, PtrsCleared, PtrsShaped, Units, Cut, Clean, FileOk, SystemOk, Doomed, SafeCut, NoStale;
      ghost var s, f := St(dk), Map();
      ReleaseStart(this, dk);
      CutReady(this, dk);
      ghost var freed := FreeDoomed(dk, from, s, f);
      nodes := Without(nodes, freed);
      ReleaseEnd(dk, s, f, from, inode.ptrs, inode.blocks);
      assert St(dk) == Remaining(dk, s, inode.blocks, inode.ptrs, freed);
      CutFile(this, dk, s, f, from);
    }

    /** `inode.size = size`: the size does not matter to the block map. */
    method SetSize(dk: Donkey, size: nat)
      requires dirty
      modifies this`inode
      ensures inode == old(inode).(size := size) && Map() == old(Map())
      ensures Valid(dk) <==> old(Valid(dk))
    {
      hide FileOk, SystemOk;
      inode := inode.(size := size);
    }

    /** `update_size`: growing only records the size; shrinking frees from the next block boundary on. */
    method UpdateSize(dk: Donkey, newSize: nat)
      requires Valid(dk) && (newSize < inode.size ==> Clean(dk.blocks, Map()))
      modifies this`inode, this`nodes, this`dirty, dk`dev, dk`sb, dk`blocks, dk`freeBlocks
      ensures dirty && dk.Valid()
      ensures inode == old(inode).(size := newSize, blocks := inode.blocks, ptrs := inode.ptrs)
      ensures newSize >= old(inode).size ==>
        Valid(dk) && St(dk) == old(St(dk)).(inode := old(inode).(size := newSize))
      ensures newSize < old(inode).size ==>
        var from := NextBlockOfPos(newSize, dk.data.unit);
        && Cut(dk.data, old(St(dk)), old(Map()), St(dk).(inode := inode.(size := old(inode).size)), from)
        && (Valid(dk) <==> SafeCut(dk.data, old(Map()), from))
        && (NoStale(Pc(dk.data), old(Map()), from) ==> Clean(dk.blocks, Map()))
    {
      hide FileOk, SystemOk, Clean, Cut, Valid, SafeCut, NoStale;
      ghost var s := St(dk);
      MarkDirty(dk);
      BlockUnitOf(this, dk);
      if inode.size > newSize {
        FreeFileDb(dk, NextBlockOfPos(newSize, dk.sb.blockSize));
        ghost var i := inode;
        SetSize(dk, newSize);
        CutSize(dk.data, s, old(Map()), St(dk).(inode := i), NextBlockOfPos(newSize, dk.data.unit));
        assert inode.(size := s.inode.size) == i;
      } else {
        SetSize(dk, newSize);
      }
    }

    /** Freeing the xattr block in `destroy`; the block counter of the dying inode is left alone. */
    method GiveXattr(dk: Donkey, ghost s: State, ghost before: set<Pos>) returns (ghost gone: set<Pos>)
      requires dk.Valid() && GivenBack(s, dk.blocks, dk.freeBlocks, dk.sb.usedDbs, before) && XATTR_POS !in before
      requires Shape(dk.data, s.nodes) && forall q :: q in s.nodes ==> s.nodes[q] !in Units(s.free)
      requires XATTR_POS in s.nodes ==> inode.xattrPtr == Ptr(dk.data, s.nodes[XATTR_POS])
      requires inode.xattrPtr != 0 <==> XATTR_POS in s.nodes
      modifies dk`dev, dk`sb, dk`blocks, dk`freeBlocks
      ensures dk.Valid() && GivenBack(s, dk.blocks, dk.freeBlocks, dk.sb.usedDbs, gone)
      ensures gone == before + s.nodes.Keys * {XATTR_POS}
    {
      hide SystemOk, Units, BlocksOf, Owned, Ptr, GivenBack, Shape;
      gone := before;
      if inode.xattrPtr != 0 {
        ghost var n := s.nodes[XATTR_POS];
        ghost var blocks, free, used := dk.blocks, dk.freeBlocks, dk.sb.usedDbs;
        GivenNode(dk.data, s, blocks, free, used, gone, XATTR_POS);
        BlockSized(dk, n);
        var _ := dk.FreeDb(inode.xattrPtr, n);
        BlockSized(dk, n);
        GivenStep(s, blocks, free, used, gone, XATTR_POS, dk.blocks, dk.freeBlocks);
        gone := gone + {XATTR_POS};
      }
    }

    /** The part of `destroy` before the inode is freed. */
    method ReleaseBlocks(dk: Donkey)
      requires Valid(dk) && Clean(dk.blocks, Map())
      modifies this`inode, this`nodes, this`dirty, dk`dev, dk`sb, dk`blocks, dk`freeBlocks
      ensures dk.Valid() && inode.ino == old(inode).ino
      ensures GivenBack(old(St(dk)), dk.blocks, dk.freeBlocks, dk.sb.usedDbs, DestroyFrees(old(inode).size, old(nodes)))
    {
      hide Valid, FileOk, SystemOk, Units, Clean, Cut, BlocksOf, Owned, Ptr, Doomed, GivenBack, Shape;
      ghost var s, f, a := St(dk), Map(), dk.data;
      ValidParts(this, dk);
      FileFacts(a, dk.blocks, dk.freeBlocks, f);
      XattrNow(this, dk);
      ValidBlocks(this, dk);
      GivenNothing(s);
      UpdateSize(dk, 0);
      ghost var gone: set<Pos> := {};
      if s.inode.size > 0 {
        CutGiven(a, s, f, St(dk).(inode := inode.(size := s.inode.size)), NextBlockOfPos(0, a.unit));
        NextOfZero(a.unit);
        DoomedZero(a, s.nodes);
        gone := s.nodes.Keys - {XATTR_POS};
      }
      gone := GiveXattr(dk, s, gone);
      FreedKeys(s.nodes, gone, s.inode.size > 0);
    }

    /**
     `destroy` of an unlinked file whose cache holds nothing the disk does not. Every block is back on the free list
     afterwards, counted once, exactly when the size is positive or there is nothing but an xattr block.
     */
    method Destroy(dk: Donkey)
      requires Valid(dk) && inode.nlink == 0 && Clean(dk.blocks, Map())
      modifies this`inode, this`nodes, this`dirty, dk
      ensures dk.Valid()
      ensures GivenBack(old(St(dk)), dk.blocks, dk.freeBlocks, dk.sb.usedDbs, DestroyFrees(old(inode).size, old(nodes)))
      ensures AllGiven(old(St(dk)), dk.freeBlocks, dk.sb.usedDbs) <==>
        old(inode).size > 0 || old(nodes).Keys <= {XATTR_POS}
      ensures Units(dk.freeSlots) == old(Units(dk.freeSlots)) + {old(inode.ino) - ROOT_INODE}
      ensures dk.sb.usedInodes == old(dk.sb.usedInodes) - 1
      ensures inode.ino == old(inode).ino && |dk.slots| == |old(dk.slots)|
      ensures forall m :: 0 <= m < |dk.slots| && m != inode.ino - ROOT_INODE ==> dk.slots[m] == old(dk.slots)[m]
    {
      hide Valid, FileOk, SystemOk, Units, Clean, GivenBack, AllGiven, DestroyFrees, Give, Total, InodePtr, OwnsSlot,
        PtrsShaped, InodeShaped;
      ghost var s := St(dk);
      SlotSized(this, dk);
      SlotsCounted(this, dk);
      ReleaseBlocks(dk);
      DestroyComplete(s, dk.blocks, dk.freeBlocks, dk.sb.usedDbs, s.inode.size);
      SlotTotal(dk);
      var _ := dk.FreeInode(inode.ino);
      SlotsReady(dk);
    }
  }

  /** `open`: `read_inode`, a `DkFile` with an empty cache, `read_xattr`; of a clean file it gives the same file. */
  method Reopen(dk: Donkey, f: DkFile) returns (r: DkResult<DkFile>)
    requires f.inode.ino >= ROOT_INODE
    ensures f.Valid(dk) && !f.dirty && InodeFits(f.inode) ==>
      match Stored(dk.blocks, f.nodes)
      case Err(e) => r == Err(e)
      case Ok(found) =>
        && r.Ok? && fresh(r.value) && r.value.Valid(dk) && r.value.inode == f.inode && r.value.nodes == f.nodes
        && !r.value.dirty && r.value.cache == NO_CACHE && r.value.pos == 0 && r.value.xattr == found
    ensures forall data :: Overrun(dk, f.inode, data) && InodeFits(f.inode) ==>
      match ParseAttrs(data[..dk.sb.blockSize])
      case Err(e) => r == Err(e)
      case Ok(_) => true
  {
    hide DkFile.Valid, InodeFits, InodeIn, SystemOk, ParseAttrs, Stored, DkFile.OwnsSlot, DkFile.Saved, InodePtr;
    var i := dk.ReadInode(f.inode.ino);
    if f.Valid(dk) && !f.dirty {
      SlotSized(f, dk);
      SavedFacts(f, dk);
    }
    if i.Err? {
      return Err(i.error);
    }
    var g := new DkFile(i.value, f.nodes, f.at);
    if f.Valid(dk) && !f.dirty && InodeFits(f.inode) {
      ReopenValid(f, g, dk);
      StoredBytes(g, dk);
    }
    var x := g.ReadXattr(dk);
    forall data | Overrun(dk, f.inode, data) && InodeFits(f.inode)
      ensures match ParseAttrs(data[..dk.sb.blockSize]) case Err(e) => x == Err(e) case Ok(_) => true
    {
      OverrunStart(dk, f.inode, data);
    }
    if x.Err? {
      return Err(x.error);
    }
    return Ok(g);
  }

  /** What `read_xattr` reads of a stream longer than the block. */
  lemma OverrunStart(dk: Donkey, inode: Inode, data: seq<Byte>)
    requires Overrun(dk, inode, data)
    ensures inode.xattrPtr + dk.sb.blockSize <= |dk.dev|
    ensures dk.dev[inode.xattrPtr..inode.xattrPtr + dk.sb.blockSize] == data[..dk.sb.blockSize]
  {
    var p, n := inode.xattrPtr, dk.sb.blockSize;
    assert dk.dev[p..p + |data|][..n] == dk.dev[p..p + n];
  }

  /** Attributes with names, which `flush` is about to store if the disk does not hold them already. */
  ghost predicate AttrsSafe(dk: Donkey, f: DkFile)
    reads f, dk
  {
    AttrsOk(f.xattr) && (f.dirty || Stored(dk.blocks, f.nodes) == Ok(f.xattr))
  }

  /** Attributes whose serialized form fits one block, in whichever order they are visited. */
  ghost predicate AttrsFit(attrs: Attrs, unit: nat) {
    forall data :: XattrData(data, attrs) ==> |data| <= unit
  }

  /** Attributes whose serialized form is longer. */
  ghost predicate AttrsLong(attrs: Attrs, unit: nat) {
    forall data :: XattrData(data, attrs) ==> |data| > unit
  }

  /** The inode can be stored, and still can when its counter has grown by two. */
  predicate CounterRoom(i: Inode) {
    InodeFits(i) && i.blocks + 2 < WORD_LIMIT
  }

  /**
   Flushing a linked file, dropping it and opening it again gives the same size, link count, map and bytes, and the same
   attributes, provided they have names, fit one block and the device is not full. Attributes that have names but do not
   fit, `data` being their stream, leave a file that cannot be opened any more.
   */
  method CloseAndReopen(dk: Donkey, f: DkFile) returns (r: DkResult<DkFile>, ghost data: seq<Byte>)
    requires f.Valid(dk) && f.inode.nlink > 0
    modifies f`inode, f`nodes, f`dirty, dk`dev, dk`sb, dk`blocks, dk`freeBlocks, dk`slots
    ensures XattrOnly(old(f.St(dk)), f.St(dk)) && f.inode.blocks <= old(f.inode).blocks + 2
    ensures data == [] || XattrData(data, f.xattr)
    ensures r.Ok? && old(f.dirty) ==> XattrData(data, f.xattr)
    ensures |data| <= dk.data.unit ==> f.Valid(dk)
    ensures |data| <= dk.data.unit && r.Ok? && InodeFits(f.inode) ==>
      && r.value.Valid(dk) && !r.value.dirty && fresh(r.value) && r.value.pos == 0
      && r.value.inode.size == old(f.inode).size && r.value.inode.nlink == old(f.inode).nlink
      && SameLookups(dk.data, old(f.nodes), r.value.nodes)
      && SameBytes(dk.data, old(dk.blocks), old(f.nodes), dk.blocks, r.value.nodes)
    ensures |data| <= dk.data.unit && InodeFits(f.inode) && old(AttrsSafe(dk, f)) ==>
      if r.Ok? then r.value.xattr == f.xattr else r.error == Exhausted
    ensures |data| > dk.data.unit && old(CounterRoom(f.inode)) && AttrsOk(f.xattr) ==>
      r.Err? && (r.error == Io || r.error == Exhausted || r.error == Corrupted)
  {
    hide DkFile.Valid, XattrOnly, InodeFits, SameLookups, SameBytes, SystemOk, Stored, XattrData, Overrun, ParseAttrs;
    ghost var s := f.St(dk);
    SlotSized(f, dk);
    FilePtrsFit(f, dk);
    var flushed;
    flushed, data := f.Flush(dk);
    XattrInode(s, f.St(dk));
    XattrGrows(s, f.St(dk));
    XattrLookups(dk.data, s, f.St(dk));
    if flushed.Err? {
      return Err(flushed.error), data;
    }
    r := Reopen(dk, f);
    if |data| > dk.data.unit {
      OverrunFits(dk, s.inode, f.inode, data);
      if AttrsOk(f.xattr) {
        LongData(data, f.xattr, dk.sb.blockSize);
      }
    }
  }

  lemma FilePtrsFit(f: DkFile, dk: Donkey)
    requires f.Valid(dk)
    ensures InodeShaped(f.inode)
    ensures forall t, k :: 0 <= t < 5 && 0 <= k < |f.inode.ptrs[t]| ==> f.inode.ptrs[t][k] < WORD_LIMIT
  {
    hide SystemOk, FileOk, Clean, InodeFits, InodeIn;
    ValidFile(f, dk);
    EntriesFit(dk, f.Map());
  }

  /** An inode that gets an xattr pointer into the device can still be stored. */
  lemma OverrunFits(dk: Donkey, i: Inode, j: Inode, data: seq<Byte>)
    requires Overrun(dk, j, data) && InodeShaped(i) && j == i.(blocks := j.blocks, xattrPtr := j.xattrPtr)
    requires j.blocks <= i.blocks + 2
    requires forall t, k :: 0 <= t < 5 && 0 <= k < |i.ptrs[t]| ==> i.ptrs[t][k] < WORD_LIMIT
    ensures CounterRoom(i) ==> InodeFits(j)
    ensures dk.sb.blockSize < |data|
  {
    hide InodeFits, InodeIn, InodePtr;
    if CounterRoom(i) {
      FitsSize(i);
      StillFits(i, j);
    }
  }

  lemma LongData(data: seq<Byte>, attrs: Attrs, n: nat)
    requires XattrData(data, attrs) && AttrsOk(attrs) && n < |data|
    ensures ParseAttrs(data[..n]) == Err(Io)
  {
    hide ParseAttrs, IsAttrStream, AttrsOk;
    LongLost(data, attrs, n);
  }

  const NO_PTRS: seq<seq<nat>> := [[0, 0, 0, 0, 0, 0, 0, 0, 0, 0, 0, 0], [0], [0], [0], [0]]

  /** The inode that `mknod` writes; the current time is a parameter. */
  function NewInode(ino: nat, mode: nat, owner: seq<nat>, nlink: nat, times: seq<nat>, device: nat): Inode {
    Inode(ino, mode, owner, nlink, times, 0, 0, device, 0, NO_PTRS)
  }

  /** `mknod`: a slot is taken and holds the new inode; no other inode and no data block changes. */
  method MakeNode(dk: Donkey, mode: nat, owner: seq<nat>, nlink: nat, times: seq<nat>,
                  device: nat) returns (r: DkResult<nat>)
    requires dk.Valid() && |owner| == 2 && |times| == 8
    modifies dk`dev, dk`sb, dk`slots, dk`freeSlots
    ensures dk.Valid()
    ensures r.Err? <==> old(dk.sb.usedInodes) == dk.table.count
    ensures r.Err? ==>
      r.error == Exhausted && dk.slots == old(dk.slots) && dk.freeSlots == old(dk.freeSlots) && dk.sb == old(dk.sb)
    ensures r.Ok? ==>
      var n := r.value - ROOT_INODE;
      && 0 <= n < dk.table.count == |dk.slots| == |old(dk.slots)| && n in Units(old(dk.freeSlots))
      && old(dk.freeSlots) != [] && n == old(dk.freeSlots)[0].first
      && Units(dk.freeSlots) == Units(old(dk.freeSlots)) - {n}
      && dk.sb == old(dk.sb).(usedInodes := old(dk.sb).usedInodes + 1, inodeHead := dk.sb.inodeHead)
      && |dk.slots[n]| == INODE_SIZE
      && (var i := NewInode(r.value, mode, owner, nlink, times, device); InodeFits(i) ==> InodeIn(dk.slots[n]) == i)
      && (NodeFits(mode, owner, nlink, times, device) ==>
            var i := InodeIn(dk.slots[n]);
            && InodeFits(i) && i == NewInode(r.value, mode, owner, nlink, times, device)
            && i.ino == r.value && i.mode == mode && i.owner == owner && i.nlink == nlink
            && i.times == times && i.device == device && i.size == 0 && i.blocks == 0 && i.xattrPtr == 0
            && forall t, k :: 0 <= t < 5 && 0 <= k < |i.ptrs[t]| ==> i.ptrs[t][k] == 0)
      && forall m :: 0 <= m < dk.table.count && m !in Units(old(dk.freeSlots)) ==> dk.slots[m] == old(dk.slots)[m]
  {
    hide SystemOk, InodeFits, InodeIn, InodeBytes, Splice, Carve, Units;
    r := dk.AllocateInode();
    if r.Ok? {
      SlotsReady(dk);
      var i := NewInode(r.value, mode, owner, nlink, times, device);
      InodeSaved(dk.slots[r.value - ROOT_INODE], i);
      if NodeFits(mode, owner, nlink, times, device) {
        NumberFits(dk, r.value - ROOT_INODE);
        NodeStored(i);
      }
      var _ := dk.WriteInode(i);
    }
  }

  lemma NumberFits(dk: Donkey, n: nat)
    requires dk.Valid() && n < dk.table.count
    ensures ROOT_INODE + n < WORD_LIMIT
  {
    hide ListOk, SuperOk, View;
    TimesIsMul(dk.table.count, dk.table.unit);
  }

  /** `open` of an inode that `mknod` has just made: an empty file. */
  method OpenNew(dk: Donkey, ino: nat, ghost i: Inode) returns (f: DkFile)
    requires dk.Valid() && ROOT_INODE <= ino < ROOT_INODE + dk.table.count == ROOT_INODE + |dk.slots|
    requires ino - ROOT_INODE !in Units(dk.freeSlots) && |dk.slots[ino - ROOT_INODE]| == INODE_SIZE
    requires i == NewInode(ino, i.mode, i.owner, i.nlink, i.times, i.device) && InodeFits(i)
    requires InodeIn(dk.slots[ino - ROOT_INODE]) == i
    ensures fresh(f) && f.Valid(dk) && f.inode == i && f.nodes == map[] && !f.dirty && f.pos == 0
    ensures f.inode.size == 0 && f.inode.blocks == 0 && f.inode.xattrPtr == 0
  {
    hide SystemOk, InodeFits, InodeIn, DkFile.Valid, FileOk, Clean, Units;
    var found := dk.ReadInode(ino);
    f := new DkFile(found.value, map[], [Pos(0, 0, 0), Pos(0, 0, 0), Pos(0, 0, 0), Pos(0, 0, 0)]);
    NewValid(f, dk);
  }

  lemma FitsShaped(i: Inode)
    requires InodeFits(i)
    ensures InodeShaped(i)
  {
  }

  lemma NewValid(f: DkFile, dk: Donkey)
    requires dk.Valid() && InodeFits(f.inode) && f.inode.ptrs == NO_PTRS && f.inode.xattrPtr == 0
    requires f.cache == NO_CACHE && |f.at| == 4 && f.nodes == map[]
    requires ROOT_INODE <= f.inode.ino < ROOT_INODE + dk.table.count == ROOT_INODE + |dk.slots|
    requires f.inode.ino - ROOT_INODE !in Units(dk.freeSlots) && |dk.slots[f.inode.ino - ROOT_INODE]| == INODE_SIZE
    requires InodeIn(dk.slots[f.inode.ino - ROOT_INODE]) == f.inode
    ensures f.Valid(dk)
  {
    hide SystemOk, InodeIn, FileOk, Clean, Units, InodeFits;
    DataReady(dk);
    EmptyFile(dk.data, dk.blocks, dk.freeBlocks, f.Map());
    FitsShaped(f.inode);
  }

  lemma SlotsReady(dk: Donkey)
    requires dk.Valid()
    ensures |dk.slots| == dk.table.count && forall n :: 0 <= n < |dk.slots| ==> |dk.slots[n]| == INODE_SIZE
  {
  }

  lemma DataReady(dk: Donkey)
    requires dk.Valid()
    ensures DataOk(dk.data) && UnitsSized(dk.data, dk.blocks)
  {
  }

  /** An inode without pointers and an empty cache represent the empty map. */
  lemma EmptyFile(a: Area, blocks: seq<seq<Byte>>, free: seq<Region>, f: FileMap)
    requires DataOk(a) && UnitsSized(a, blocks)
    requires f.ptrs == NO_PTRS && f.xattrPtr == 0 && f.cache == NO_CACHE && |f.at| == 4 && f.nodes == map[]
    ensures FileOk(a, blocks, free, f) && Clean(blocks, f)
  {
  }

  /** `next_block_of_pos`: the number of blocks that cover the first `pos` bytes. */
  function NextBlockOfPos(pos: nat, bs: nat): (r: nat)
    requires bs > 0
    ensures pos <= Times(r, bs) < pos + bs
  {
    DivMod(pos + bs - 1, bs);
    TimesIsMul((pos + bs - 1) / bs, bs);
    (pos + bs - 1) / bs
  }

  /** The outcome of freeing a clean file from block `from` on. */
  ghost predicate Cut(a: Area, s: State, f: FileMap, t: State, from: nat) {
    && Partial(s, t.(nodes := s.nodes), Doomed(Pc(a), s.nodes, from))
    && t.nodes == Without(s.nodes, Doomed(Pc(a), s.nodes, from))
    && PtrsCleared(a, f, t.inode.ptrs, from)
    && t.inode == s.inode.(blocks := t.inode.blocks, ptrs := t.inode.ptrs)
    && Stepped(s, t) && Counted(s, t) && UnitsSized(a, t.blocks)
  }

  lemma CutReady(file: DkFile, dk: Donkey)
    requires file.Valid(dk)
    ensures FileOk(dk.data, dk.blocks, dk.freeBlocks, file.Map()) && |file.nodes| <= file.inode.blocks
    ensures file.OwnsSlot(dk)
  {
  }

  lemma CutFile(file: DkFile, dk: Donkey, s: State, f: FileMap, from: nat)
    requires dk.Valid() && Cut(dk.data, s, f, file.St(dk), from)
    requires FileOk(dk.data, s.blocks, s.free, f) && Clean(s.blocks, f) && s.nodes == f.nodes
    requires |s.nodes| <= s.inode.blocks
    requires file.Map() == f.(ptrs := file.inode.ptrs, nodes := file.nodes) && file.OwnsSlot(dk)
    ensures file.dirty ==> (file.Valid(dk) <==> SafeCut(dk.data, f, from))
    ensures NoStale(Pc(dk.data), f, from) ==> Clean(dk.blocks, file.Map())
  {
    hide NoStraddle, NoStale, Partial, PtrsCleared, Clean, SystemOk, Coherent, Doomed, Units, Stepped;
    var t := file.St(dk).(nodes := s.nodes);
    TruncatedOk(dk.data, s, f, t, file.inode.ptrs, from);
    assert file.Map() == Truncated(dk.data, f, file.inode.ptrs, from);
    if NoStale(Pc(dk.data), f, from) {
      TruncatedClean(dk.data, s, f, t, file.inode.ptrs, from);
    }
  }

  ghost function Remaining(dk: Donkey, s: State, count: nat, ptrs: seq<seq<nat>>, freed: set<Pos>): State
    reads dk
  {
    State(dk.blocks, dk.freeBlocks, dk.sb.usedDbs, s.inode.(blocks := count, ptrs := ptrs), Without(s.nodes, freed))
  }

  lemma CutSize(a: Area, s: State, f: FileMap, t: State, from: nat)
    requires Cut(a, s, f, t, from)
    ensures t.inode == s.inode.(blocks := t.inode.blocks, ptrs := t.inode.ptrs)
  {
  }

  lemma ReleaseStart(file: DkFile, dk: Donkey)
    requires file.Valid(dk) && Clean(dk.blocks, file.Map())
    ensures Releasing(dk, file.inode.blocks, file.St(dk), file.Map(), {}) && PtrsShaped(file.inode.ptrs)
  {
    hide Clean, SystemOk, Links, CacheOk, Shape;
    PartialStart(file.St(dk));
  }

  lemma ReleaseEnd(dk: Donkey, s: State, f: FileMap, from: nat, ptrs: seq<seq<nat>>, count: nat)
    requires Releasing(dk, count, s, f, Doomed(Pc(dk.data), s.nodes, from))
    requires PtrsCleared(dk.data, f, ptrs, from)
    ensures dk.Valid() && Cut(dk.data, s, f, Remaining(dk, s, count, ptrs, Doomed(Pc(dk.data), s.nodes, from)), from)
  {
    hide Clean, SystemOk, FileOk, PtrsCleared, Partial, Stepped, Counted;
    var gone := Doomed(Pc(dk.data), s.nodes, from);
    var t := Remaining(dk, s, count, ptrs, gone);
    PartialPtrs(s, Now(dk, count, s), t, gone);
    PartialConserves(s, t, gone);
    UnitsSizedNow(dk);
  }

  lemma PartialPtrs(s: State, u: State, t: State, gone: set<Pos>)
    requires Partial(s, u, gone)
    requires t.blocks == u.blocks && t.free == u.free && t.used == u.used && t.inode.blocks == u.inode.blocks
    ensures Partial(s, t, gone)
    ensures Partial(s, t.(nodes := s.nodes), gone)
  {
  }

  lemma UnitsSizedNow(dk: Donkey)
    requires dk.Valid()
    ensures UnitsSized(dk.data, dk.blocks)
  {
  }

  lemma DirectRest(ptrs: seq<seq<nat>>, now: seq<seq<nat>>, n: nat)
    requires DirectCleared(ptrs, now, n)
    ensures PtrsShaped(now) && forall t :: 1 <= t <= 4 ==> now[t] == ptrs[t]
  {
  }

  /** The current state with block counter `count` and the node map of the state the release began in. */
  ghost function Now(dk: Donkey, count: nat, s: State): State
    reads dk
  {
    State(dk.blocks, dk.freeBlocks, dk.sb.usedDbs, s.inode.(blocks := count), s.nodes)
  }

  /** A release of a clean file that began in state `s` has freed the nodes `freed`. */
  ghost predicate Releasing(dk: Donkey, count: nat, s: State, f: FileMap, freed: set<Pos>)
    reads dk
  {
    && dk.Valid() && Partial(s, Now(dk, count, s), freed)
    && FileOk(dk.data, s.blocks, s.free, f) && Clean(s.blocks, f) && s.nodes == f.nodes
    && |s.nodes| <= s.inode.blocks
  }

  function Min(x: nat, y: nat): nat {
    if x < y then x else y
  }

  /** The first position whose signed 64-bit value is negative. */
  const SEEK_LIMIT := 0x8000_0000_0000_0000

  /** With blocks of 4096 bytes every position below the limit of the five levels can be sought to. */
  lemma SeekReaches(x: nat)
    requires x < Times(MaxBlocks(512), 4096)
    ensures x < SEEK_LIMIT
  {
    hide MaxBlocks, Times;
    LimitAt4096();
    TimesIsMul(MaxBlocks(512), 4096);
  }

  lemma BlockSized(dk: Donkey, n: nat)
    requires dk.Valid() && n < dk.data.count
    ensures |dk.blocks| == dk.data.count && |dk.blocks[n]| == dk.data.unit == dk.sb.blockSize
  {
  }

  lemma QuietSame(s: State)
    ensures Quiet(s, s)
  {
  }

  lemma DiskWordsAt(blocks: seq<seq<Byte>>, nodes: map<Pos, nat>, p: Pos)
    requires p in nodes && nodes[p] < |blocks|
    ensures DiskWords(blocks, nodes, p) == Words(blocks[nodes[p]][0..|blocks[nodes[p]]|])
  {
    assert blocks[nodes[p]][0..|blocks[nodes[p]]|] == blocks[nodes[p]];
  }

  lemma FileLengths(a: Area, blocks: seq<seq<Byte>>, free: seq<Region>, f: FileMap)
    requires FileOk(a, blocks, free, f)
    ensures DataOk(a) && |f.cache| == |f.at| == 4 && PtrsShaped(f.ptrs)
  {
  }

  lemma FileFacts(a: Area, blocks: seq<seq<Byte>>, free: seq<Region>, f: FileMap)
    requires FileOk(a, blocks, free, f)
    ensures DataOk(a) && |blocks| == a.count && |f.cache| == |f.at| == 4 && PtrsShaped(f.ptrs)
    ensures forall p :: p in f.nodes ==> f.nodes[p] < a.count && ValidPos(Pc(a), p) && f.nodes[p] !in Units(free)
  {
  }

  lemma LeafLookup(a: Area, nodes: map<Pos, nat>, bi: nat)
    requires bi < MaxBlocks(Pc(a))
    ensures var p := Leaf(Pc(a), bi); Lookup(a, nodes, bi) == if p in nodes then Some(Ptr(a, nodes[p])) else None
  {
  }

  /** The file is valid again once a fresh block is hung into its map. */
  lemma HungValid(file: DkFile, dk: Donkey, s: State, blocks: seq<seq<Byte>>, leaf: Pos)
    requires dk.Valid() && file.dirty && dk.blocks == blocks && FileOk(dk.data, blocks, dk.freeBlocks, file.Map())
    requires Extended(s, State(blocks, dk.freeBlocks, s.used + 1, s.inode.(blocks := s.inode.blocks + 1), file.nodes),
      leaf)
    requires dk.sb.usedDbs == s.used + 1 && file.inode == s.inode.(blocks := s.inode.blocks + 1)
    requires |s.nodes| <= s.inode.blocks
    requires |file.inode.owner| == 2 && |file.inode.times| == 8 && |dk.slots| == dk.table.count
    requires ROOT_INODE <= file.inode.ino < ROOT_INODE + dk.table.count
    requires file.inode.ino - ROOT_INODE !in Units(dk.freeSlots)
    ensures file.Valid(dk) && Extended(s, file.St(dk), leaf)
  {
    hide FileOk, Extended, SystemOk, DkFile.Valid, Units, Clean, InodeFits, InodeIn;
    ExtendedFacts(s, file.St(dk), leaf);
    ValidBuild(file, dk);
  }

  lemma Onward(s: State, t: State, u: State, leaf: Pos, path: set<Pos>)
    requires Extended(s, t, leaf) && Extended(t, u, leaf) && Grown(s.nodes, t.nodes, path)
    requires Grown(t.nodes, u.nodes, path)
    ensures Extended(s, u, leaf) && Grown(s.nodes, u.nodes, path)
  {
    hide Extended, Grown;
    ExtendedTrans(s, t, u, leaf);
    GrownOn(s.nodes, t.nodes, u.nodes, path, path);
  }

  lemma SpaceUsed(file: DkFile, dk: Donkey)
    requires file.Valid(dk)
    ensures DataOk(dk.data) && Shape(dk.data, file.nodes) && dk.sb.usedDbs <= dk.data.count
  {
  }

  /** A write that stopped on a full device needed more blocks than were free. */
  lemma FailedWrite(file: DkFile, dk: Donkey, s: State, off: nat, data: seq<Byte>, done: nat)
    requires file.Stuck(dk) && Pc(dk.data) > 0 && SizeOk(dk.data, off + |data|) && done < |data|
    requires file.pos == off + done
    requires Wrote(dk.data, s, file.St(dk), off, data[..done])
    requires Grown(s.nodes, file.nodes, Needed(dk.data, off, |data|))
    ensures Missing(dk.data, s.nodes, off, |data|) > dk.data.count - s.used
  {
    hide SizeOk, MaxBlocks, Grown, Needed, Missing, ByteAt, Stepped, PathNodes, Leaf, BlockOfPos;
    ByteNeeds(dk.data, off, |data|, file.pos);
    LeafOnPath(Pc(dk.data), BlockOfPos(file.pos, dk.data.unit).0);
    TooFewFree(dk.data, s, file.St(dk), off, |data|, Leaf(Pc(dk.data), BlockOfPos(file.pos, dk.data.unit).0));
  }

  lemma PcPositive(file: DkFile, dk: Donkey)
    requires file.Valid(dk)
    ensures Pc(dk.data) > 0
  {
  }

  lemma ValidFacts(f: DkFile, dk: Donkey)
    requires f.Valid(dk)
    ensures dk.sb.blockSize == dk.data.unit && dk.sb.blockSize / 8 == Pc(dk.data) >= 2
    ensures PtrsShaped(f.inode.ptrs) && |f.cache| == |f.at| == 4
    ensures DataOk(dk.data) && UnitsSized(dk.data, dk.blocks)
    ensures forall p :: p in f.nodes ==> ValidPos(Pc(dk.data), p) && f.nodes[p] < dk.data.count
    ensures forall p :: p in f.nodes ==> f.nodes[p] !in Units(dk.freeBlocks)
  {
    hide Links, Roots, Chained, Words;
  }

  lemma BlockUnit(dk: Donkey)
    requires dk.Valid()
    ensures dk.sb.blockSize == dk.data.unit && dk.sb.blockSize / 8 == Pc(dk.data)
  {
  }

  /** What a held slot contains. */
  lemma HeldFacts(a: Area, blocks: seq<seq<Byte>>, free: seq<Region>, f: FileMap, h: nat, p: Pos)
    requires FileOk(a, blocks, free, f) && h < 4 && Holds(f, h, p)
    ensures DataOk(a) && |f.cache| == |f.at| == 4 && f.cache[h].Loaded?
    ensures Linked(a, f.nodes, p, f.cache[h].words) && |f.cache[h].words| == Pc(a)
    ensures p in f.nodes && p.height == h + 1 && ValidPos(Pc(a), p)
  {
    hide Links, Roots, Words;
    SlotFacts(a, blocks, f, h);
  }

  lemma WordIs(a: Area, nodes: map<Pos, nat>, p: Pos, words: seq<nat>, i: nat)
    requires DataOk(a) && Linked(a, nodes, p, words) && i < Pc(a)
    ensures var c := Child(Pc(a), p, i);
      words[i] == (if c in nodes then Ptr(a, nodes[c]) else 0) && (words[i] == 0 <==> c !in nodes)
  {
    EntryZero(a, nodes, Child(Pc(a), p, i));
  }

  lemma DirectWord(f: DkFile, dk: Donkey, bi: nat)
    requires f.Valid(dk) && bi < MaxBlocks(Pc(dk.data)) && TreeOf(Pc(dk.data), bi) == 0
    ensures bi < 12 && PtrsShaped(f.inode.ptrs) && Start(Pc(dk.data), 0) == 0 && Leaf(Pc(dk.data), bi) == Pos(0, 0, bi)
    ensures Lookup(dk.data, f.nodes, bi) == if f.inode.ptrs[0][bi] == 0 then None else Some(f.inode.ptrs[0][bi])
  {
    hide Links, Words, CacheOk, SystemOk, Ptr;
    var m := f.Map();
    assert RootWord(m, Pos(0, 0, bi)) == m.ptrs[0][bi];
    EntryZero(dk.data, f.nodes, Pos(0, 0, bi));
  }

  lemma ValidParts(f: DkFile, dk: Donkey)
    requires f.Valid(dk)
    ensures dk.Valid() && FileOk(dk.data, dk.blocks, dk.freeBlocks, f.Map())
    ensures |f.nodes| <= f.inode.blocks && |f.inode.owner| == 2 && |f.inode.times| == 8 && |dk.slots| == dk.table.count
    ensures ROOT_INODE <= f.inode.ino < ROOT_INODE + dk.table.count && f.inode.ino - ROOT_INODE !in Units(dk.freeSlots)
  {
  }

  lemma ValidBuild(f: DkFile, dk: Donkey)
    requires dk.Valid() && FileOk(dk.data, dk.blocks, dk.freeBlocks, f.Map()) && f.dirty
    requires |f.inode.owner| == 2 && |f.inode.times| == 8 && |dk.slots| == dk.table.count && |f.nodes| <= f.inode.blocks
    requires ROOT_INODE <= f.inode.ino < ROOT_INODE + dk.table.count && f.inode.ino - ROOT_INODE !in Units(dk.freeSlots)
    ensures f.Valid(dk)
  {
  }

  lemma ValidFile(f: DkFile, dk: Donkey)
    requires f.Valid(dk)
    ensures FileOk(dk.data, dk.blocks, dk.freeBlocks, f.Map())
  {
  }

  lemma RootPtr(a: Area, blocks: seq<seq<Byte>>, free: seq<Region>, f: FileMap, t: nat)
    requires FileOk(a, blocks, free, f) && IsTree(t)
    ensures PtrsShaped(f.ptrs) && f.ptrs[t][0] == Entry(a, f.nodes, Root(t))
  {
    hide Links, Words, CacheOk, Shape, Ptr;
    assert RootWord(f, Root(t)) == f.ptrs[t][0];
  }

  lemma AbsentOnPath(f: DkFile, dk: Donkey, bi: nat, p: Pos, off: nat)
    requires f.Valid(dk) && OnPath(Pc(dk.data), bi, p, off) && p !in f.nodes
    ensures Lookup(dk.data, f.nodes, bi) == None
  {
    hide DkFile.Valid, Shape, DataOk, Ptr, Span, ValidPos, MaxBlocks;
    SpaceUsed(f, dk);
    AbsentBelow(dk.data, f.nodes, p, off);
  }

  /** At the end of the descent the cached word is the looked-up pointer. */
  lemma LeafWord(f: DkFile, dk: Donkey, bi: nat, p: Pos, off: nat)
    requires f.Valid(dk) && Holds(f.Map(), 0, p) && bi < MaxBlocks(Pc(dk.data))
    requires off < Pc(dk.data) && p.height > 0 && Child(Pc(dk.data), p, off) == Leaf(Pc(dk.data), bi)
    ensures |f.cache| == 4 && f.cache[0].Loaded? && |f.cache[0].words| == Pc(dk.data)
    ensures var word := f.cache[0].words[off]; Lookup(dk.data, f.nodes, bi) == if word == 0 then None else Some(word)
  {
    hide Links, Words, CacheOk, Roots, SystemOk, Ptr, Linked, Coherent;
    HeldFacts(dk.data, dk.blocks, dk.freeBlocks, f.Map(), 0, p);
    WordIs(dk.data, f.nodes, p, f.cache[0].words, off);
  }

  lemma EvictStep(a: Area, s: State, f: FileMap, h: nat)
    requires FileOk(a, s.blocks, s.free, f) && s.nodes == f.nodes && h < 4
    ensures var b := Evicted(s.blocks, f, h);
      FileOk(a, b, s.free, f) && SlotClean(b, f, h) && Quiet(s, s.(blocks := b))
  {
    hide Coherent, SlotClean, Clean, Evicted;
    EvictFile(a, s.blocks, s.free, f, h);
  }

  lemma TopIndex(ptrs: seq<seq<nat>>, c: Pos)
    requires PtrsShaped(ptrs) && Top(c) && c.tree <= 4
    ensures |ptrs| == 5 && c.index < |ptrs[c.tree]|
  {
  }

  lemma PlantedIs(a: Area, f: FileMap, c: Pos, n: nat, g: FileMap)
    requires |f.cache| == |f.at| == 4 && PtrsShaped(f.ptrs) && Top(c) && c.tree != XATTR
    requires g.ptrs == WithPtr(f.ptrs, c.tree, c.index, Ptr(a, n)) && g.xattrPtr == f.xattrPtr
    requires g.nodes == f.nodes[c := n]
    requires c.height > 0 ==>
      && g.cache == f.cache[c.height - 1 := Loaded(Ptr(a, n), ZeroWords(Pc(a)))] && g.at == f.at[c.height - 1 := c]
    requires c.height == 0 ==> g.cache == f.cache && g.at == f.at
    ensures g == Planted(a, f, c, n)
  {
  }

  lemma HungIs(a: Area, f: FileMap, p: Pos, i: nat, n: nat, g: FileMap)
    requires |f.cache| == |f.at| == 4 && 1 <= p.height <= 4 && Holds(f, p.height - 1, p)
    requires i < |f.cache[p.height - 1].words|
    requires g.ptrs == f.ptrs && g.xattrPtr == f.xattrPtr && g.nodes == f.nodes[Child(Pc(a), p, i) := n]
    requires
      var words: seq<nat> := f.cache[p.height - 1].words[i := Ptr(a, n)];
      var one := f.cache[p.height - 1 := Loaded(f.cache[p.height - 1].ptr, words)];
      if p.height == 1 then g.cache == one && g.at == f.at
      else
        && g.cache == one[p.height - 2 := Loaded(Ptr(a, n), ZeroWords(Pc(a)))]
        && g.at == f.at[p.height - 2 := Child(Pc(a), p, i)]
    ensures g == Hung(a, f, p, i, n)
  {
  }

  lemma ExtendedFacts(s: State, t: State, leaf: Pos)
    requires Extended(s, t, leaf) && |s.nodes| <= s.inode.blocks
    ensures |t.nodes| <= t.inode.blocks && t.inode == s.inode.(blocks := t.inode.blocks, ptrs := t.inode.ptrs)
  {
  }

  lemma BlockUnitOf(f: DkFile, dk: Donkey)
    requires f.Valid(dk)
    ensures dk.Valid() && dk.sb.blockSize == dk.data.unit > 0
  {
  }

  lemma OwnedBlock(f: DkFile, dk: Donkey, n: nat)
    requires f.Valid(dk) && n in Owned(f.nodes)
    ensures n < dk.data.count == |dk.blocks| && |dk.blocks[n]| == dk.data.unit && n !in Units(dk.freeBlocks)
  {
    hide Links, Roots, CacheOk, SystemOk, ValidPos;
  }

  lemma ValidBlocks(f: DkFile, dk: Donkey)
    requires f.Valid(dk)
    ensures dk.Valid() && Shape(dk.data, f.nodes) && UnitsSized(dk.data, dk.blocks) && |dk.blocks| == dk.data.count
  {
  }

  lemma PartialCounts(s: State, t: State, freed: set<Pos>)
    requires Partial(s, t, freed) && |freed| < |s.nodes| <= s.inode.blocks
    ensures t.inode.blocks > 0 && |t.blocks| == |s.blocks|
  {
  }

  lemma ReleasingFacts(dk: Donkey, count: nat, s: State, f: FileMap, freed: set<Pos>)
    requires Releasing(dk, count, s, f, freed)
    ensures DataOk(dk.data) && Shape(dk.data, s.nodes) && dk.Valid()
    ensures dk.sb.blockSize == dk.data.unit && dk.sb.blockSize / 8 == Pc(dk.data) >= 2
  {
    hide Partial, Links, Roots, CacheOk, Clean, Shape;
  }

  /** A node still to be visited is as it was when the release began. */
  lemma ReleasingNode(dk: Donkey, count: nat, s: State, f: FileMap, freed: set<Pos>, p: Pos)
    requires Releasing(dk, count, s, f, freed) && p in s.nodes && p !in freed && p.height > 0
    ensures s.nodes[p] < dk.data.count == |dk.blocks| && |dk.blocks[s.nodes[p]]| == dk.data.unit
    ensures Linked(dk.data, s.nodes, p, Words(dk.blocks[s.nodes[p]][0..dk.data.unit]))
    ensures |Words(dk.blocks[s.nodes[p]][0..dk.data.unit])| == Pc(dk.data)
  {
    hide Partial, Links, Roots, CacheOk, Clean, SystemOk, Words, Shape, Linked;
    CleanLinked(dk.data, s.blocks, f, p);
    PartialNode(dk.data, s, Now(dk, count, s), freed, p);
    BlockSized(dk, s.nodes[p]);
    assert dk.blocks[s.nodes[p]][0..dk.data.unit] == dk.blocks[s.nodes[p]];
    LinkedAt(dk.data, s.nodes, p, Words(dk.blocks[s.nodes[p]]), 0);
  }

  lemma SpanQuotient(pc: nat, level: nat)
    requires pc > 0 && level > 0
    ensures Pow(pc, level) / pc == Span(pc, level - 1)
  {
    SpanIsPow(pc, level);
    TimesIsMul(pc, Span(pc, level - 1));
    DivUnique(Span(pc, level - 1), 0, pc);
  }

  lemma DoomedNone(pc: nat, nodes: map<Pos, nat>, p: Pos, from: nat)
    ensures DoomedUnder(pc, nodes, p, from, First(pc, p)) == {}
  {
  }

  lemma DoomedLeaf(pc: nat, nodes: map<Pos, nat>, p: Pos, from: nat, to: nat)
    requires p.height == 0
    ensures DoomedUnder(pc, nodes, p, from, to) == {}
  {
  }

  lemma ChildNotFreed(pc: nat, nodes: map<Pos, nat>, c: Pos, from: nat, before: set<Pos>, to: nat)
    requires c !in before
    ensures c !in before + DoomedUnder(pc, nodes, c, from, to)
  {
  }

  lemma ReleasingNodes(dk: Donkey, count: nat, s: State, f: FileMap, freed: set<Pos>)
    requires Releasing(dk, count, s, f, freed)
    ensures forall q :: q in s.nodes ==> ValidPos(Pc(dk.data), q)
  {
    hide Partial, Links, Roots, CacheOk, Clean, SystemOk;
  }

  /** The inode word of a node that hangs from the inode. */
  lemma TopWord(dk: Donkey, count: nat, s: State, f: FileMap, freed: set<Pos>, c: Pos)
    requires Releasing(dk, count, s, f, freed) && Top(c) && PtrsShaped(f.ptrs)
    ensures RootWord(f, c) == (if c in s.nodes then Ptr(dk.data, s.nodes[c]) else 0)
    ensures RootWord(f, c) == 0 <==> c !in s.nodes
  {
    hide Partial, Links, CacheOk, Clean, SystemOk, Shape, Ptr;
    EntryZero(dk.data, s.nodes, c);
  }

  lemma StartOne(pc: nat)
    ensures Start(pc, 1) == 12
  {
  }

  lemma StartNext(pc: nat, t: nat)
    requires IsTree(t)
    ensures Start(pc, t + 1) == Start(pc, t) + Span(pc, t)
  {
  }

  lemma NodeOwned(nodes: map<Pos, nat>, p: Pos)
    requires p in nodes
    ensures nodes[p] in Owned(nodes)
  {
  }

  lemma DataBlockLeaf(a: Area, nodes: map<Pos, nat>, bi: nat)
    requires bi < MaxBlocks(Pc(a)) && DataBlock(a, nodes, bi).Some?
    ensures Leaf(Pc(a), bi) in nodes && nodes[Leaf(Pc(a), bi)] == DataBlock(a, nodes, bi).value
  {
  }

  /** The first `h` slots written back, one after the other. */
  function OverlayTo(blocks: seq<seq<Byte>>, f: FileMap, h: nat): seq<seq<Byte>> {
    if h == 0 then blocks else Evicted(OverlayTo(blocks, f, h - 1), f, h - 1)
  }

  lemma OverlayAll(blocks: seq<seq<Byte>>, f: FileMap)
    ensures OverlayTo(blocks, f, 4) == Overlay(blocks, f)
  {
    hide Evicted;
    assert OverlayTo(blocks, f, 1) == Evicted(OverlayTo(blocks, f, 0), f, 0);
    assert OverlayTo(blocks, f, 2) == Evicted(OverlayTo(blocks, f, 1), f, 1);
    assert OverlayTo(blocks, f, 3) == Evicted(OverlayTo(blocks, f, 2), f, 2);
  }

  lemma EvictOthers(a: Area, blocks: seq<seq<Byte>>, free: seq<Region>, f: FileMap, h: nat)
    requires FileOk(a, blocks, free, f) && h < 4
    ensures forall k :: 0 <= k < 4 && SlotClean(blocks, f, k) ==> SlotClean(Evicted(blocks, f, h), f, k)
  {
    hide Evicted, SlotClean, Coherent;
    EvictKeeps(a, blocks, f, h);
  }

  ghost function Ahead(s: State): int {
    s.inode.blocks - |s.nodes|
  }

  /** What `write_xattr` adds to the counter. */
  ghost function Added(before: map<Pos, nat>, after: map<Pos, nat>): nat {
    if XATTR_POS !in before && XATTR_POS in after then 1 else 0
  }

  ghost function Released(s: State, t: State): nat {
    if XATTR_POS in s.nodes && XATTR_POS !in t.nodes then 1 else 0
  }

  /** What one call on an open file does to it: read, look up, allocate, write, truncate, or store its attributes. */
  ghost predicate FileStep(a: Area, s: State, t: State) {
    || Quiet(s, t)
    || (exists leaf :: Extended(s, t, leaf))
    || (exists off, data :: Wrote(a, s, t, off, data))
    || (exists f, from :: Cut(a, s, f, t, from))
    || (XattrOnly(s, t) && t.inode.blocks == s.inode.blocks + Added(s.nodes, t.nodes))
  }

  ghost function Releases(run: seq<State>): nat {
    if |run| < 2 then 0 else Releases(run[..|run| - 1]) + Released(run[|run| - 2], run[|run| - 1])
  }

  lemma StepCounted(a: Area, s: State, t: State)
    requires FileStep(a, s, t)
    ensures Ahead(t) == Ahead(s) + Released(s, t)
  {
    hide Stepped, Partial, PtrsCleared, ByteAt, XattrOnly;
    if XattrOnly(s, t) {
      XattrSize(s, t);
    }
  }

  /** The number of nodes follows the xattr block. */
  lemma XattrSize(s: State, t: State)
    requires XattrOnly(s, t)
    ensures |t.nodes| == |s.nodes| + Added(s.nodes, t.nodes) - Released(s, t)
  {
    hide XattrOnly;
    XattrKeys(s, t);
    SizeWithout(s.nodes, XATTR_POS);
    SizeWithout(t.nodes, XATTR_POS);
  }

  lemma XattrKeys(s: State, t: State)
    requires XattrOnly(s, t)
    ensures t.nodes.Keys - {XATTR_POS} == s.nodes.Keys - {XATTR_POS}
  {
    hide Stepped;
  }

  lemma SizeWithout(nodes: map<Pos, nat>, p: Pos)
    ensures |nodes| == |nodes.Keys - {p}| + if p in nodes then 1 else 0
  {
    assert |nodes| == |nodes.Keys|;
    if p in nodes {
      assert nodes.Keys == nodes.Keys - {p} + {p};
    } else {
      assert nodes.Keys == nodes.Keys - {p};
    }
  }

  /**
   Over every run of calls on a file its block counter is ahead of the blocks it has by exactly the number of xattr
   blocks released: `write_xattr` frees them without counting.
   */
  lemma {:induction false} CounterExact(a: Area, run: seq<State>)
    requires run != [] && forall i :: 0 < i < |run| ==> FileStep(a, run[i - 1], run[i])
    ensures Ahead(run[|run| - 1]) == Ahead(run[0]) + Releases(run)
  {
    hide FileStep;
    if |run| > 1 {
      CounterExact(a, run[..|run| - 1]);
      StepCounted(a, run[|run| - 2], run[|run| - 1]);
    }
  }

  lemma OneLess(nodes: map<Pos, nat>, p: Pos)
    requires p in nodes
    ensures |nodes - {p}| == |nodes| - 1
  {
    assert (nodes - {p}).Keys == nodes.Keys - {p};
  }

  /** Attributes longer than a block have overwritten the start of the next block, whoever it belongs to. */
  lemma SpillOver(dk: Donkey, dev: seq<Byte>, n: nat, data: seq<Byte>)
    requires Spilled(dk, dev, Ptr(dk.data, n), data) && |data| > dk.data.unit && n + 1 < dk.data.count
    ensures AreaOk(dk.data, |dk.dev|)
    ensures var spilled, next := data[dk.data.unit..], UnitAt(dk.dev, dk.data, n + 1);
      spilled <= next || next <= spilled
  {
    hide SuperOk, ListOk, Times;
    var unit, p := dk.data.unit, Ptr(dk.data, n);
    NextPtr(dk.data, n);
    PtrInside(dk.data, n + 1, |dk.dev|);
    var spilled, next := data[unit..], UnitAt(dk.dev, dk.data, n + 1);
    forall k | 0 <= k < |spilled| && k < |next|
      ensures spilled[k] == next[k]
    {
      assert next[k] == dk.dev[p + unit + k] == data[unit + k];
    }
  }

  lemma NextPtr(a: Area, n: nat)
    ensures Ptr(a, n + 1) == Ptr(a, n) + a.unit
  {
  }

  /** What `read_xattr` finds for a file with this map: the stream in the xattr block, if there is one. */
  function Stored(blocks: seq<seq<Byte>>, nodes: map<Pos, nat>): DkResult<Attrs> {
    if XATTR_POS in nodes && nodes[XATTR_POS] < |blocks| then ParseAttrs(blocks[nodes[XATTR_POS]]) else Ok(map[])
  }

  /** What `write_xattr` writes; without attributes there is nothing. */
  ghost predicate XattrData(data: seq<Byte>, attrs: Attrs) {
    if attrs == map[] then data == [] else IsAttrStream(data, attrs)
  }

  /** The device is the valid one `dev` with `data` put at `ptr` in the data area, across the ends of blocks. */
  ghost predicate Spilled(dk: Donkey, dev: seq<Byte>, ptr: nat, data: seq<Byte>)
    reads dk
  {
    && SystemOk(dev, dk.sb, dk.table, dk.data, dk.slots, dk.blocks, dk.freeSlots, dk.freeBlocks)
    && dk.data.base <= ptr && ptr + |data| <= |dev| && dk.dev == Splice(dev, ptr, data)
  }

  lemma NothingStored(blocks: seq<seq<Byte>>, nodes: map<Pos, nat>)
    ensures XATTR_POS !in nodes ==> Stored(blocks, nodes) == Ok(map[])
  {
  }

  lemma NodesApart(a: Area, nodes: map<Pos, nat>)
    requires Shape(a, nodes)
    ensures forall p, q :: p in nodes && q in nodes && nodes[p] == nodes[q] ==> p == q
  {
  }

  lemma StoredStream(blocks: seq<seq<Byte>>, nodes: map<Pos, nat>, block: seq<Byte>, data: seq<Byte>, attrs: Attrs)
    requires XATTR_POS in nodes && nodes[XATTR_POS] < |blocks| && |data| <= |block|
    requires blocks[nodes[XATTR_POS]] == Splice(block, 0, data) && IsAttrStream(data, attrs) && AttrsSized(attrs)
    ensures Stored(blocks, nodes) == Ok(attrs) <==> [] !in attrs
  {
    hide ParseAttrs, IsAttrStream;
    assert Splice(block, 0, data) == data + block[|data|..];
    StreamHeld(data, attrs, block[|data|..]);
  }

  lemma StoredBytes(g: DkFile, dk: Donkey)
    requires g.Valid(dk)
    ensures g.inode.xattrPtr == 0 ==> Stored(dk.blocks, g.nodes) == Ok(map[])
    ensures g.inode.xattrPtr != 0 ==>
      var p, q := g.inode.xattrPtr, g.inode.xattrPtr + dk.sb.blockSize;
      q <= |dk.dev| && Stored(dk.blocks, g.nodes) == ParseAttrs(dk.dev[p..q])
  {
    hide DkFile.Valid, SystemOk, ParseAttrs, Ptr, Shape;
    XattrNow(g, dk);
    ValidBlocks(g, dk);
    if XATTR_POS in g.nodes {
      UnitOnDevice(dk, g.nodes[XATTR_POS]);
      NodeBelow(dk.data, g.nodes, XATTR_POS);
    }
  }

  lemma NodeBelow(a: Area, nodes: map<Pos, nat>, p: Pos)
    requires Shape(a, nodes) && p in nodes
    ensures nodes[p] < a.count
  {
  }

  lemma UnitOnDevice(dk: Donkey, n: nat)
    requires dk.Valid() && n < dk.data.count
    ensures var p := Ptr(dk.data, n);
      p + dk.sb.blockSize <= |dk.dev| && n < |dk.blocks| && dk.dev[p..p + dk.sb.blockSize] == dk.blocks[n]
  {
    hide SuperOk, ListOk, Ptr;
    ReadUnit(dk.dev, dk.sb, dk.table, dk.data, dk.slots, dk.blocks, n, 0, dk.data.unit);
  }

  /** The stream of a file whose attributes went over the end of their block. */
  lemma SpillStart(f: DkFile, dk: Donkey)
    requires f.Valid(dk) && XATTR_POS in f.nodes
    ensures dk.Valid() && f.OwnsSlot(dk) && dk.data.base <= f.inode.xattrPtr && dk.sb.blockSize == dk.data.unit
  {
    hide FileOk, Clean, SuperOk, ListOk;
    XattrNow(f, dk);
  }

  /**
   The stream `data` on the device goes over the end of the xattr block that the inode names, and the inode is in its
   place on the device.
   */
  predicate OverrunOn(dev: seq<Byte>, unit: nat, inode: Inode, data: seq<Byte>) {
    && inode.ino >= ROOT_INODE && InodePtr(inode.ino) + INODE_SIZE <= |dev| < WORD_LIMIT
    && (InodeFits(inode) ==> InodeIn(dev[InodePtr(inode.ino)..InodePtr(inode.ino) + INODE_SIZE]) == inode)
    && inode.xattrPtr != 0 && unit < |data| && inode.xattrPtr + |data| <= |dev|
    && dev[inode.xattrPtr..inode.xattrPtr + |data|] == data
  }

  ghost predicate Overrun(dk: Donkey, inode: Inode, data: seq<Byte>)
    reads dk
  {
    OverrunOn(dk.dev, dk.sb.blockSize, inode, data)
  }

  /** The device with the inode in its place, if that is on the device. */
  function InodeOver(dev: seq<Byte>, inode: Inode): seq<Byte>
    requires InodeShaped(inode) && inode.ino >= ROOT_INODE
  {
    if InodePtr(inode.ino) + INODE_BYTES <= |dev| then Splice(dev, InodePtr(inode.ino), InodeBytes(inode)) else dev
  }

  /** Writing the inode leaves the stream alone. */
  lemma SlotWritten(dk: Donkey, dev: seq<Byte>, inode: Inode, data: seq<Byte>)
    requires Spilled(dk, dev, inode.xattrPtr, data) && InodeShaped(inode) && |data| > dk.data.unit
    requires ROOT_INODE <= inode.ino < ROOT_INODE + dk.table.count
    ensures InodePtr(inode.ino) + INODE_BYTES <= |dk.dev|
    ensures OverrunOn(InodeOver(dk.dev, inode), dk.sb.blockSize, inode, data)
  {
    hide SuperOk, ListOk, LayoutOk, InodeBytes, Splice, InodeFits, InodeIn, InodePtr;
    SlotBelow(dev, dk.sb, dk.table, dk.data, dk.slots, dk.blocks, inode.ino);
    SpillSizes(dk, dev);
    SpliceBefore(dev, inode.xattrPtr, data, InodePtr(inode.ino), InodeBytes(inode));
    var p := InodePtr(inode.ino);
    SpliceInside(dk.dev, p, INODE_SIZE, InodeBytes(inode));
    InodeSaved(dk.dev[p..p + INODE_SIZE], inode);
  }

  lemma SpillSizes(dk: Donkey, dev: seq<Byte>)
    requires LayoutOk(dev, dk.sb, dk.table, dk.data, dk.slots, dk.blocks)
    ensures |dev| < WORD_LIMIT && dk.data.base > 0 && dk.sb.blockSize == dk.data.unit
  {
  }

  lemma XattrSame(s: State)
    ensures XattrOnly(s, s)
  {
  }

  lemma XattrWord(a: Area, blocks: seq<seq<Byte>>, free: seq<Region>, f: FileMap)
    requires FileOk(a, blocks, free, f)
    ensures f.xattrPtr == Entry(a, f.nodes, XATTR_POS) && (f.xattrPtr == 0 <==> XATTR_POS !in f.nodes)
  {
    hide Links, CacheOk, Shape, Ptr;
    assert RootWord(f, XATTR_POS) == f.xattrPtr;
    EntryZero(a, f.nodes, XATTR_POS);
  }

  lemma XattrNow(f: DkFile, dk: Donkey)
    requires f.Valid(dk)
    ensures XATTR_POS in f.nodes ==> f.inode.xattrPtr == Ptr(dk.data, f.nodes[XATTR_POS])
    ensures f.inode.xattrPtr != 0 <==> XATTR_POS in f.nodes
  {
    hide Coherent, SystemOk, Clean, Ptr;
    XattrWord(dk.data, dk.blocks, dk.freeBlocks, f.Map());
  }

  lemma XattrShrinks(s: State, t: State)
    requires XattrOnly(s, t) && |s.nodes| <= s.inode.blocks
    ensures |t.nodes| <= t.inode.blocks
  {
  }

  /** Filling the xattr block touches nothing else. */
  lemma XattrWritten(s: State, t: State, u: State)
    requires XattrOnly(s, t) && XATTR_POS in t.nodes && u == t.(blocks := u.blocks) && |u.blocks| == |t.blocks|
    requires forall p, q :: p in t.nodes && q in t.nodes && t.nodes[p] == t.nodes[q] ==> p == q
    requires forall m :: 0 <= m < |t.blocks| && m != t.nodes[XATTR_POS] ==> u.blocks[m] == t.blocks[m]
    ensures XattrOnly(s, u)
  {
    assert t.nodes[XATTR_POS] in Owned(t.nodes);
    assert forall m :: m !in Units(s.free) && m !in Owned(s.nodes) ==> m !in Units(t.free) + Owned(t.nodes);
  }

  lemma XattrGrows(s: State, t: State)
    requires XattrOnly(s, t)
    ensures |t.nodes| <= |s.nodes| + 1
  {
    SubsetSize(t.nodes.Keys, s.nodes.Keys + {XATTR_POS});
  }

  lemma XattrInode(s: State, t: State)
    requires XattrOnly(s, t)
    ensures t.inode == s.inode.(blocks := t.inode.blocks, xattrPtr := t.inode.xattrPtr)
  {
  }

  lemma SlotSized(f: DkFile, dk: Donkey)
    requires f.Valid(dk)
    ensures InodeShaped(f.inode) && ROOT_INODE <= f.inode.ino < ROOT_INODE + dk.table.count
    ensures |dk.slots| == dk.table.count && |dk.slots[f.inode.ino - ROOT_INODE]| == INODE_SIZE
    ensures f.inode.ino - ROOT_INODE !in Units(dk.freeSlots)
  {
    hide FileOk, Clean;
  }

  lemma InodeSaved(slot: seq<Byte>, i: Inode)
    requires InodeShaped(i) && |slot| == INODE_SIZE
    ensures InodeFits(i) ==> InodeIn(Splice(slot, 0, InodeBytes(i))) == i
  {
    hide InodeFits, InodeBytes, InodeIn, Splice, InodeShaped;
    if InodeFits(i) {
      InodeRoundTrip(i, slot);
    }
  }

  lemma ValidSaved(f: DkFile, dk: Donkey)
    requires dk.Valid() && f.OwnsSlot(dk) && FileOk(dk.data, dk.blocks, dk.freeBlocks, f.Map())
    requires |f.nodes| <= f.inode.blocks
    requires Clean(dk.blocks, f.Map())
    requires (InodeFits(f.inode) ==> InodeIn(dk.slots[f.inode.ino - ROOT_INODE]) == f.inode)
    ensures f.Valid(dk)
  {
  }

  ghost predicate SameLookups(a: Area, before: map<Pos, nat>, after: map<Pos, nat>) {
    forall bi: nat :: bi < MaxBlocks(Pc(a)) ==> Lookup(a, after, bi) == Lookup(a, before, bi)
  }

  ghost predicate SameBytes(a: Area, blocks: seq<seq<Byte>>, before: map<Pos, nat>, after: seq<seq<Byte>>,
                            nodes: map<Pos, nat>) {
    forall x: nat :: ByteAt(a, after, nodes, x) == ByteAt(a, blocks, before, x)
  }

  /** The xattr block is invisible to lookups and reads. */
  lemma XattrLookups(a: Area, s: State, t: State)
    requires XattrOnly(s, t)
    ensures SameLookups(a, s.nodes, t.nodes) && SameBytes(a, s.blocks, s.nodes, t.blocks, t.nodes)
  {
    hide XattrOnly, Leaf, MaxBlocks, BlockOfPos, Pc, ByteAt;
    forall bi: nat | bi < MaxBlocks(Pc(a))
      ensures Lookup(a, t.nodes, bi) == Lookup(a, s.nodes, bi)
    {
      XattrLeaf(a, s, t, bi);
    }
    forall x: nat
      ensures ByteAt(a, t.blocks, t.nodes, x) == ByteAt(a, s.blocks, s.nodes, x)
    {
      XattrByte(a, s, t, x);
    }
  }

  lemma XattrLeaf(a: Area, s: State, t: State, bi: nat)
    requires XattrOnly(s, t) && bi < MaxBlocks(Pc(a))
    ensures var p := Leaf(Pc(a), bi);
      && (p in t.nodes <==> p in s.nodes) && |t.blocks| == |s.blocks|
      && (p in s.nodes ==> t.nodes[p] == s.nodes[p])
      && (p in s.nodes && s.nodes[p] < |s.blocks| ==> t.blocks[s.nodes[p]] == s.blocks[s.nodes[p]])
  {
    var p := Leaf(Pc(a), bi);
    assert p != XATTR_POS && p.height == 0;
  }

  lemma XattrByte(a: Area, s: State, t: State, x: nat)
    requires XattrOnly(s, t)
    ensures ByteAt(a, t.blocks, t.nodes, x) == ByteAt(a, s.blocks, s.nodes, x)
  {
    hide XattrOnly, Leaf, MaxBlocks, BlockOfPos, Pc;
    if a.unit > 0 && BlockOfPos(x, a.unit).0 < MaxBlocks(Pc(a)) {
      XattrLeaf(a, s, t, BlockOfPos(x, a.unit).0);
    }
  }

  /** The pointers of a valid file fit 64 bits, so its inode fits if its size and its counter do. */
  lemma InodeStillFits(f: DkFile, dk: Donkey, i: Inode)
    requires f.Valid(dk) && InodeFits(i) && f.inode.size < WORD_LIMIT && f.inode.blocks < WORD_LIMIT
    requires f.inode == i.(size := f.inode.size, blocks := f.inode.blocks, xattrPtr := f.inode.xattrPtr,
      ptrs := f.inode.ptrs)
    ensures InodeFits(f.inode)
  {
    hide InodeFits, SystemOk, Links, CacheOk, Clean, Units;
    SlotSized(f, dk);
    ValidBlocks(f, dk);
    EntriesFit(dk, f.Map());
    StillFits(i, f.inode);
  }

  lemma EntriesFit(dk: Donkey, f: FileMap)
    requires dk.Valid() && FileOk(dk.data, dk.blocks, dk.freeBlocks, f)
    ensures PtrsShaped(f.ptrs) && f.xattrPtr < WORD_LIMIT
    ensures forall t, k :: 0 <= t < 5 && 0 <= k < |f.ptrs[t]| ==> f.ptrs[t][k] < WORD_LIMIT
  {
    hide SuperOk, ListOk, Links, CacheOk, Units, Ptr;
    forall p | p in f.nodes
      ensures Ptr(dk.data, f.nodes[p]) < WORD_LIMIT
    {
      PtrInside(dk.data, f.nodes[p], |dk.dev|);
    }
    assert RootWord(f, XATTR_POS) == f.xattrPtr;
    forall t, k | 0 <= t < 5 && 0 <= k < |f.ptrs[t]|
      ensures f.ptrs[t][k] < WORD_LIMIT
    {
      var p := if t == 0 then Pos(0, 0, k) else Root(t);
      assert Top(p) && RootWord(f, p) == f.ptrs[t][k];
    }
  }

  lemma SavedFacts(f: DkFile, dk: Donkey)
    requires f.Valid(dk) && !f.dirty
    ensures dk.Valid() && f.OwnsSlot(dk) && f.Saved(dk)
  {
  }

  lemma ReopenValid(f: DkFile, g: DkFile, dk: Donkey)
    requires f.Valid(dk) && !f.dirty && InodeFits(f.inode) && !g.dirty
    requires g.cache == NO_CACHE && g.nodes == f.nodes && g.at == f.at
    requires |dk.slots| == dk.table.count && ROOT_INODE <= f.inode.ino < ROOT_INODE + dk.table.count
    requires |dk.slots[f.inode.ino - ROOT_INODE]| == INODE_SIZE
    requires g.inode == InodeIn(dk.slots[f.inode.ino - ROOT_INODE])
    ensures g.Valid(dk) && g.inode == f.inode
  {
    hide Coherent, SystemOk, Clean, InodeIn, InodeFits;
    ReopenKeeps(dk.data, dk.blocks, f.Map());
    assert g.Map() == f.Map().(cache := NO_CACHE);
  }

  lemma CutGiven(a: Area, s: State, f: FileMap, t: State, from: nat)
    requires Cut(a, s, f, t, from)
    ensures GivenBack(s, t.blocks, t.free, t.used, Doomed(Pc(a), s.nodes, from))
  {
    hide Partial, Stepped, Counted, Doomed;
    PartialGiven(s, t.(nodes := s.nodes), Doomed(Pc(a), s.nodes, from));
  }

  lemma NextOfZero(bs: nat)
    requires bs > 0
    ensures NextBlockOfPos(0, bs) == 0
  {
    if NextBlockOfPos(0, bs) > 0 {
      TimesApart(0, NextBlockOfPos(0, bs), bs);
    }
  }

  lemma FreedKeys(nodes: map<Pos, nat>, gone: set<Pos>, all: bool)
    requires gone == (if all then nodes.Keys - {XATTR_POS} else {}) + nodes.Keys * {XATTR_POS}
    ensures gone == if all then nodes.Keys else nodes.Keys * {XATTR_POS}
  {
  }

  /** The inode use counter is determined by the list of free slots. */
  lemma SlotTotal(dk: Donkey)
    requires dk.Valid()
    ensures dk.sb.usedInodes == dk.table.count - Total(dk.freeSlots)
  {
  }

  lemma SlotsCounted(f: DkFile, dk: Donkey)
    requires f.Valid(dk)
    ensures dk.sb.usedInodes == dk.table.count - Total(dk.freeSlots)
  {
  }
}
