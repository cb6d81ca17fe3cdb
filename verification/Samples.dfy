/**
 Concrete files on which truncation and destruction do not do what a caller expects. Each is a coherent file on a
 concrete disk; what is shown holds for every outcome that the contracts of the operations allow.
 */
module Samples {
  import opened Arith
  import opened Codec
  import opened Regions
  import opened Areas
  import opened Layout
  import opened Positions
  import opened BlockMap
  import opened Frames
  import opened Release
  import opened Walk
  import opened Results

  // ----- A file of 14 blocks: 12 direct ones and two below the single indirect block -----

  const LEFT := Pos(1, 0, 0)
  const RIGHT := Pos(1, 0, 1)

  /** Direct blocks in blocks 0 to 11, the pointer block in block 12, its two children behind it. */
  function SampleNodes(): map<Pos, nat> {
    (map p | p in (set k: nat | k < 12 :: Pos(0, 0, k)) :: p.index) + map[Root(1) := 12, LEFT := 13, RIGHT := 14]
  }

  function SampleWords(a: Area): seq<nat> {
    [Ptr(a, 13), Ptr(a, 14)] + ZeroWords(if Pc(a) >= 2 then Pc(a) - 2 else 0)
  }

  function SamplePtrs(a: Area): (ptrs: seq<seq<nat>>)
    ensures PtrsShaped(ptrs)
  {
    [seq(12, k requires 0 <= k => Ptr(a, k)), [Ptr(a, 12)], [0], [0], [0]]
  }

  function SampleDisk(a: Area): seq<seq<Byte>> {
    seq(a.count, n => if n == 12 then FromWords(SampleWords(a)) else seq(a.unit, _ => 0))
  }

  /** The file, with its pointer block in the cache if `cached`, as a flush leaves it. */
  function SampleFile(a: Area, cached: bool): FileMap {
    FileMap(SamplePtrs(a), 0,
            [if cached then Loaded(Ptr(a, 12), SampleWords(a)) else Empty, Empty, Empty, Empty],
            [Root(1), Root(1), Root(1), Root(1)], SampleNodes())
  }

  /** All other blocks are free. */
  function SampleFree(a: Area): seq<Region> {
    if a.count > 15 then [Region(15, a.count - 15)] else []
  }

  function SampleState(a: Area, inode: Inode): State {
    State(SampleDisk(a), SampleFree(a), 15, inode.(blocks := 15, ptrs := SamplePtrs(a)), SampleNodes())
  }

  lemma SampleAt(p: Pos)
    ensures p in SampleNodes() <==>
      (p.tree == 0 && p.height == 0 && p.index < 12) || p == Root(1) || p == LEFT || p == RIGHT
    ensures p in SampleNodes() ==>
      SampleNodes()[p] == if p.tree == 0 then p.index else if p.height == 1 then 12 else 13 + p.index
  {
    if p.tree == 0 && p.height == 0 && p.index < 12 {
      assert p == Pos(0, 0, p.index);
    }
  }

  lemma SampleChild(a: Area, i: nat)
    requires DataOk(a)
    ensures Pc(a) >= 2 && Child(Pc(a), Root(1), i) == Pos(1, 0, i) && Span(Pc(a), 1) == Pc(a) && Span(Pc(a), 0) == 1
    ensures i < Pc(a) ==> Parent(Pc(a), Pos(1, 0, i)) == Root(1)
    ensures First(Pc(a), Pos(1, 0, i)) == 12 + i && First(Pc(a), Root(1)) == 12
  {
    TimesOne(Pc(a));
    TimesOne(i);
    assert Start(Pc(a), 1) == 12;
    if i < Pc(a) {
      ParentOfChild(Pc(a), Root(1), i);
    }
  }

  lemma SampleShape(a: Area)
    requires DataOk(a) && a.count >= 15
    ensures Shape(a, SampleNodes())
  {
    hide SampleNodes, ValidPos, Parent, Shape;
    forall p | p in SampleNodes()
      ensures ValidPos(Pc(a), p) && SampleNodes()[p] < a.count
      ensures (IsTree(p.tree) && p.height < p.tree ==> Parent(Pc(a), p) in SampleNodes())
    {
      SampleNode(a, p);
    }
    forall p, q | p in SampleNodes() && q in SampleNodes() && SampleNodes()[p] == SampleNodes()[q]
      ensures p == q
    {
      SampleApart(p, q);
    }
    ShapeOf(a, SampleNodes());
  }

  lemma ShapeOf(a: Area, nodes: map<Pos, nat>)
    requires DataOk(a) && forall p :: p in nodes ==> ValidPos(Pc(a), p) && nodes[p] < a.count
    requires forall p, q :: p in nodes && q in nodes && nodes[p] == nodes[q] ==> p == q
    requires forall p :: p in nodes && IsTree(p.tree) && p.height < p.tree ==> Parent(Pc(a), p) in nodes
    ensures Shape(a, nodes)
  {
    hide ValidPos, Parent;
  }

  lemma SampleApart(p: Pos, q: Pos)
    requires p in SampleNodes() && q in SampleNodes() && SampleNodes()[p] == SampleNodes()[q]
    ensures p == q
  {
    hide SampleNodes;
    SampleAt(p);
    SampleAt(q);
  }

  lemma SampleNode(a: Area, p: Pos)
    requires DataOk(a) && p in SampleNodes()
    ensures ValidPos(Pc(a), p) && SampleNodes()[p] < 15
    ensures IsTree(p.tree) && p.height < p.tree ==> Parent(Pc(a), p) in SampleNodes()
  {
    hide SampleNodes, Span, Parent;
    SampleAt(p);
    SampleAt(Root(1));
    SampleChild(a, p.index);
  }

  lemma SampleRoots(a: Area, cached: bool)
    requires DataOk(a) && a.count >= 15
    ensures Roots(a, SampleFile(a, cached))
  {
    hide SampleNodes, Ptr;
    forall p | Top(p)
      ensures RootWord(SampleFile(a, cached), p) == Entry(a, SampleNodes(), p)
    {
      SampleAt(p);
    }
  }

  lemma SampleLinked(a: Area)
    requires DataOk(a) && a.count >= 15
    ensures Linked(a, SampleNodes(), Root(1), SampleWords(a))
    ensures AreWords(SampleWords(a)) && Words(FromWords(SampleWords(a))) == SampleWords(a)
  {
    hide SampleNodes, Words, FromWords, Ptr;
    forall i | 0 <= i < Pc(a)
      ensures SampleWords(a)[i] == Entry(a, SampleNodes(), Child(Pc(a), Root(1), i))
    {
      SampleAt(Pos(1, 0, i));
      SampleChild(a, i);
    }
    SampleShape(a);
    LinkedWords(a, SampleNodes(), Root(1), SampleWords(a));
  }

  /** The file is coherent, none of its blocks is free, and its cache is clean. */
  lemma SampleOk(a: Area, cached: bool)
    requires DataOk(a) && a.count >= 15
    ensures FileOk(a, SampleDisk(a), SampleFree(a), SampleFile(a, cached))
    ensures Clean(SampleDisk(a), SampleFile(a, cached))
  {
    hide Words, FromWords, Linked, SampleNodes, SampleWords, Shape, Roots, Ptr;
    var f, disk := SampleFile(a, cached), SampleDisk(a);
    SampleShape(a);
    SampleRoots(a, cached);
    SampleLinked(a);
    SampleAt(Root(1));
    SampleChild(a, 0);
    SampleSized(a);
    forall p | p in f.nodes
      ensures p.height > 0 ==> Linked(a, f.nodes, p, WordsAt(disk, f, p))
      ensures f.nodes[p] !in Units(SampleFree(a))
    {
      SampleAt(p);
    }
  }

  lemma SampleSized(a: Area)
    requires DataOk(a)
    ensures UnitsSized(a, SampleDisk(a))
  {
    hide Words, FromWords, SampleWords;
    SampleLength(a);
    forall n | 0 <= n < a.count
      ensures |SampleDisk(a)[n]| == a.unit
    {
      assert n == 12 ==> |FromWords(SampleWords(a))| == a.unit;
    }
  }

  lemma SampleLength(a: Area)
    requires DataOk(a)
    ensures |SampleWords(a)| == Pc(a) && WORD * Pc(a) == a.unit
  {
  }

  // ----- Truncations of that file -----

  /** Cut to one block, the file loses block 0 as well: its block is free and its bytes are gone from the map. */
  lemma TruncateLosesDirect(a: Area, inode: Inode, t: State)
    requires DataOk(a) && a.count >= 15
    requires Partial(SampleState(a, inode), t, Doomed(Pc(a), SampleNodes(), 1))
    ensures FileOk(a, SampleDisk(a), SampleFree(a), SampleFile(a, false)) && 0 < MaxBlocks(Pc(a))
    ensures Lookup(a, SampleNodes(), 0) == Some(Ptr(a, 0)) && 0 in Units(t.free)
    ensures Lookup(a, Without(SampleNodes(), Doomed(Pc(a), SampleNodes(), 1)), 0) == None
  {
    hide MaxBlocks, SampleNodes, Partial, Ptr, SampleFile, SampleDisk, FileOk;
    SampleOk(a, false);
    var p := Pos(0, 0, 0);
    SampleAt(p);
    DirectLookup(a, SampleNodes(), 0);
    TreeUnique(Pc(a), 0, 0);
    TruncatedLookup(a, SampleNodes(), 1, 0);
    DoomedFree(SampleState(a, inode), t, Doomed(Pc(a), SampleNodes(), 1), p);
  }

  /** Cut to 13 blocks, its pointer block survives and keeps, on disk, a word that points at a free block. */
  lemma TruncateLeavesDangling(a: Area, inode: Inode, t: State, ptrs: seq<seq<nat>>)
    requires DataOk(a) && a.count >= 15 && UnitsSized(a, t.blocks)
    requires Partial(SampleState(a, inode), t, Doomed(Pc(a), SampleNodes(), 13))
    requires PtrsCleared(a, SampleFile(a, false), ptrs, 13)
    ensures FileOk(a, SampleDisk(a), SampleFree(a), SampleFile(a, false))
    ensures |Words(t.blocks[12])| == Pc(a) >= 2 && Words(t.blocks[12])[1] == Ptr(a, 14)
    ensures 12 !in Units(t.free) && 14 in Units(t.free)
    ensures !Coherent(a, t.blocks, Truncated(a, SampleFile(a, false), ptrs, 13))
  {
    hide SampleNodes, Partial, Ptr, SampleDisk, FileOk, Coherent, Clean, Words, SampleFree, Units, Doomed, First,
      PtrsCleared, SamplePtrs;
    SampleOk(a, false);
    SampleAt(Root(1));
    SampleAt(RIGHT);
    SampleChild(a, 1);
    var s, f := SampleState(a, inode), SampleFile(a, false);
    DanglingWord(a, s, f, t, 13, Root(1), 1);
    assert Straddles(a, SampleNodes(), 13, Root(1));
    TruncatedOk(a, s, f, t, ptrs, 13);
  }

  /**
   Flushed, so that its pointer block stays in the cache, and cut to nothing: no pointer dangles on disk, but the
   cache still holds block 12, which is free, and will write it back there. The file is not coherent.
   */
  lemma TruncateLeavesStale(a: Area, inode: Inode, t: State, ptrs: seq<seq<nat>>)
    requires DataOk(a) && a.count >= 15 && UnitsSized(a, t.blocks)
    requires Partial(SampleState(a, inode), t, Doomed(Pc(a), SampleNodes(), 0))
    requires PtrsCleared(a, SampleFile(a, true), ptrs, 0)
    ensures FileOk(a, SampleDisk(a), SampleFree(a), SampleFile(a, true)) && Clean(SampleDisk(a), SampleFile(a, true))
    ensures NoStraddle(a, SampleNodes(), 0)
    ensures var g := Truncated(a, SampleFile(a, true), ptrs, 0);
      && g.cache[0] == Loaded(Ptr(a, 12), SampleWords(a)) && 12 in Units(t.free)
      && !Coherent(a, t.blocks, g)
  {
    hide SampleNodes, Partial, Ptr, SampleDisk, FileOk, Coherent, Clean, Words, SampleFree, Units, Doomed, First,
      PtrsCleared, SamplePtrs, SampleWords, NoStraddle;
    SampleOk(a, true);
    SampleAt(Root(1));
    SampleChild(a, 0);
    SampleShape(a);
    var s, f := SampleState(a, inode), SampleFile(a, true);
    CleanCuts(a, SampleNodes(), 0, 1);
    StaleSlot(a, s, f, t, 0, 0);
    TruncatedOk(a, s, f, t, ptrs, 0);
    assert !NoStale(Pc(a), f, 0);
  }

  // ----- A file of size 0 that has a pointer block -----

  /**
   What a first write at block 12 leaves when the device is full after one allocation, once it is flushed: size 0, and
   an empty pointer block. `destroy` does not give that block back.
   */
  lemma DestroyKeepsRoot(a: Area, disk: seq<seq<Byte>>, n: nat, free: seq<Region>)
    requires DataOk(a) && UnitsSized(a, disk) && n < a.count && n !in Units(free)
    requires disk[n] == FromWords(ZeroWords(Pc(a)))
    ensures var f := FileMap([seq(12, _ => 0), [Ptr(a, n)], [0], [0], [0]], 0, NO_CACHE,
                             [Root(1), Root(1), Root(1), Root(1)], map[Root(1) := n]);
      && FileOk(a, disk, free, f) && Clean(disk, f)
      && Root(1) !in DestroyFrees(0, f.nodes) && !(f.nodes.Keys <= {XATTR_POS})
  {
    hide Words, FromWords, Ptr;
    var nodes := map[Root(1) := n];
    SampleChild(a, 0);
    forall i | 0 <= i < Pc(a)
      ensures ZeroWords(Pc(a))[i] == Entry(a, nodes, Child(Pc(a), Root(1), i))
    {
      SampleChild(a, i);
    }
    PtrBlockRoundTrip(ZeroWords(Pc(a)));
  }

  // ----- Disks that are behind the cache -----

  /**
   The file of 14 blocks with its pointer block cached, and block 15 just taken for its next block: the walk of the
   disk, which `destroy` of the unlinked file makes, does not free block 15.
   */
  lemma DestroyLeaks(a: Area)
    requires DataOk(a) && a.count >= 16 && Pc(a) >= 3
    ensures FileOk(a, SampleDisk(a), SampleFree(a), SampleFile(a, true)) && Clean(SampleDisk(a), SampleFile(a, true))
    ensures |SampleWords(a)| == Pc(a) && 15 in Units(SampleFree(a))
    ensures var g := Hung(a, SampleFile(a, true), Root(1), 2, 15);
      && g.nodes == SampleNodes()[Pos(1, 0, 2) := 15] && Coherent(a, SampleDisk(a), g)
      && Ptr(a, 15) !in Frees(a, SampleDisk(a), Ptr(a, 12), 1, 12, 0)
  {
    hide SampleNodes, SampleDisk, SamplePtrs, Frees, Coherent, Clean, Words, Ptr, FileOk, First;
    SampleOk(a, true);
    SampleLength(a);
    SampleChild(a, 2);
    SampleAt(Root(1));
    SampleFresh(a);
    SampleParts(a);
    HungLeaks(a, SampleDisk(a), SampleFile(a, true), Root(1), 2, 15);
    HungKeeps(a, SampleDisk(a), SampleFile(a, true), Root(1), 2, 15);
  }

  lemma SampleFresh(a: Area)
    requires a.count >= 16
    ensures Fresh(a, SampleNodes(), 15)
  {
    hide SampleNodes;
    forall p | p in SampleNodes()
      ensures SampleNodes()[p] != 15
    {
      SampleAt(p);
    }
  }

  lemma SampleParts(a: Area)
    requires FileOk(a, SampleDisk(a), SampleFree(a), SampleFile(a, true)) && Clean(SampleDisk(a), SampleFile(a, true))
    ensures Coherent(a, SampleDisk(a), SampleFile(a, true)) && forall h :: 0 <= h < 4 ==>
      SlotClean(SampleDisk(a), SampleFile(a, true), h)
  {
    hide Coherent;
  }

  /** A device as `format` leaves it: one free region, whose header is in block 0. */
  function FreshDisk(a: Area): seq<seq<Byte>> {
    seq(a.count, n =>
      if n == 0 && a.unit >= FREE_LIST_SIZE
      then Header(0, Times(a.count, a.unit)) + seq(a.unit - FREE_LIST_SIZE, _ => 0)
      else seq(a.unit, _ => 0))
  }

  /**
   The first file of a formatted device is written at block 12: block 0 becomes its root. Until that root is flushed its
   block still holds the header, and the walk of `destroy` hands the size of the free region to `free_db` as a pointer.
   */
  lemma DestroyFreesHeader(a: Area, after: seq<seq<Byte>>)
    requires DataOk(a) && a.count >= 2
    requires Alloced(a, FreshDisk(a), [Region(0, a.count)], after, Carve([Region(0, a.count)], 1), 0)
    ensures var f := FileMap([seq(12, _ => 0), [0], [0], [0], [0]], 0, NO_CACHE, [Root(1), Root(1), Root(1), Root(1)],
      map[]);
      && FileOk(a, FreshDisk(a), [Region(0, a.count)], f) && Chained(a, FreshDisk(a), [Region(0, a.count)])
      && Planted(a, f, Root(1), 0).nodes == map[Root(1) := 0]
      && Times(a.count, a.unit) in Frees(a, after, Ptr(a, 0), 1, DIRECT, 0)
  {
    hide Frees, Words, FromWords, Ptr, Times, Alloced, Header;
    var f := FileMap([seq(12, _ => 0), [0], [0], [0], [0]], 0, NO_CACHE, [Root(1), Root(1), Root(1), Root(1)], map[]);
    var free := [Region(0, a.count)];
    assert free[1..] == [];
    FreshChained(a);
    StaleRootFrees(a, FreshDisk(a), free, after, f);
  }

  lemma FreshChained(a: Area)
    requires DataOk(a) && a.count >= 2
    ensures UnitsSized(a, FreshDisk(a)) && Chained(a, FreshDisk(a), [Region(0, a.count)])
  {
    hide FromWords, Times, Header;
    var rs := [Region(0, a.count)];
    assert rs[1..] == [];
    var block := FreshDisk(a)[0];
    assert block == Header(0, Times(a.count, a.unit)) + seq(a.unit - FREE_LIST_SIZE, _ => 0);
    assert block[..FREE_LIST_SIZE] == Header(0, Times(a.count, a.unit));
    forall n | 0 <= n < a.count
      ensures |FreshDisk(a)[n]| == a.unit
    {
    }
  }
}
