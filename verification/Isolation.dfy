/**
 Whole runs over many files that share one device. A step works on one file; the data area stays
 partitioned into free blocks and the blocks of each file, and no other file notices.
 */
module Isolation {
  import opened Arith
  import opened Codec
  import opened Regions
  import opened Areas
  import opened Layout
  import opened Positions
  import opened BlockMap
  import opened Frames
  import opened Contents
  import opened Release
  import opened Samples
  import opened Results
  import opened DonkeyFs
  import opened DkFiles

  datatype System = System(blocks: seq<seq<Byte>>, free: seq<Region>, files: map<nat, FileMap>)

  /** No block serves two files. */
  ghost predicate Disjoint(files: map<nat, FileMap>) {
    forall i, j :: i in files && j in files && i != j ==> Owned(files[i].nodes) !! Owned(files[j].nodes)
  }

  function AllOwned(files: map<nat, FileMap>): set<nat> {
    set i, n | i in files && n in Owned(files[i].nodes) :: n
  }

  /** Free blocks and the blocks of the files partition the data area. */
  ghost predicate Partitioned(a: Area, s: System) {
    && (forall i :: i in s.files ==> FileOk(a, s.blocks, s.free, s.files[i]))
    && Disjoint(s.files)
    && Units(s.free) !! AllOwned(s.files) && Units(s.free) + AllOwned(s.files) == Range(0, a.count)
    && UnitsSized(a, s.blocks)
  }

  datatype Event = Work(file: nat) | Create(file: nat) | Remove(file: nat)

  /** What the contracts of the file operations allow a step to do. */
  ghost predicate Next(a: Area, s: System, t: System, e: Event) {
    && UnitsSized(a, t.blocks)
    && match e
       case Work(i) =>
         && i in s.files && i in t.files && t.files == s.files[i := t.files[i]]
         && Moved(s.blocks, s.free, s.files[i].nodes, t.blocks, t.free, t.files[i].nodes)
           && FileOk(a, t.blocks, t.free, t.files[i])
       case Create(i) =>
         && i !in s.files && i in t.files && t == s.(files := s.files[i := t.files[i]])
         && t.files[i].nodes == map[] && FileOk(a, t.blocks, t.free, t.files[i])
       case Remove(i) =>
         && i in s.files && t.files == s.files - {i}
         && Moved(s.blocks, s.free, s.files[i].nodes, t.blocks, t.free, map[])
  }

  /** A file that the step does not name depends on blocks that the step cannot touch. */
  lemma OtherFile(a: Area, s: System, t: System, i: nat, after: map<Pos, nat>, j: nat)
    requires Partitioned(a, s) && i in s.files && j in s.files && i != j
    requires Moved(s.blocks, s.free, s.files[i].nodes, t.blocks, t.free, after) && UnitsSized(a, t.blocks)
    ensures FileOk(a, t.blocks, t.free, s.files[j])
    ensures Owned(after) !! Owned(s.files[j].nodes)
    ensures forall p :: p in s.files[j].nodes ==>
      s.files[j].nodes[p] < |s.blocks| && t.blocks[s.files[j].nodes[p]] == s.blocks[s.files[j].nodes[p]]
  {
    hide Links, Roots, CacheOk, Units;
    var g := s.files[j];
    forall p | p in g.nodes
      ensures g.nodes[p] < |s.blocks| && g.nodes[p] !in Units(s.free) && g.nodes[p] !in Owned(s.files[i].nodes)
    {
      assert g.nodes[p] in Owned(g.nodes);
    }
    assert forall m :: m in Owned(after) ==> m in Units(s.free) + Owned(s.files[i].nodes);
    assert forall m :: m in Units(t.free) ==> m in Units(s.free) + Owned(s.files[i].nodes);
    CoherentFrame(a, s.blocks, t.blocks, g);
  }

  lemma OwnedUpdate(files: map<nat, FileMap>, i: nat, g: FileMap)
    requires i in files && Disjoint(files)
    ensures AllOwned(files - {i}) == AllOwned(files) - Owned(files[i].nodes)
    ensures AllOwned(files[i := g]) == AllOwned(files - {i}) + Owned(g.nodes)
  {
    hide Owned;
    var rest := files - {i};
    forall n | n in AllOwned(files) && n !in Owned(files[i].nodes)
      ensures n in AllOwned(rest)
    {
      var j :| j in files && n in Owned(files[j].nodes);
      assert j in rest && rest[j] == files[j];
    }
    forall n | n in AllOwned(files[i := g])
      ensures n in AllOwned(rest) + Owned(g.nodes)
    {
      var j :| j in files[i := g] && n in Owned(files[i := g][j].nodes);
      if j != i {
        assert j in rest && rest[j] == files[j];
      }
    }
    forall n | n in AllOwned(rest) + Owned(g.nodes)
      ensures n in AllOwned(files[i := g])
    {
      if n in Owned(g.nodes) {
        assert files[i := g][i] == g;
      } else {
        var j :| j in rest && n in Owned(rest[j].nodes);
        assert files[i := g][j] == rest[j];
      }
    }
  }

  /** Every step keeps the partition. */
  lemma StepPartitioned(a: Area, s: System, t: System, e: Event)
    requires Partitioned(a, s) && Next(a, s, t, e)
    ensures Partitioned(a, t)
  {
    match e
    case Work(i) =>
      WorkPartitioned(a, s, t, i);
    case Create(i) =>
      CreatePartitioned(a, s, t, i);
    case Remove(i) =>
      RemovePartitioned(a, s, t, i);
  }

  lemma WorkPartitioned(a: Area, s: System, t: System, i: nat)
    requires Partitioned(a, s) && Next(a, s, t, Work(i))
    ensures Partitioned(a, t)
  {
    hide FileOk, Units, Owned, AllOwned, UnitsSized;
    forall j | j in s.files && j != i
      ensures FileOk(a, t.blocks, t.free, s.files[j]) && Owned(t.files[i].nodes) !! Owned(s.files[j].nodes)
    {
      OtherFile(a, s, t, i, t.files[i].nodes, j);
    }
    OwnedUpdate(s.files, i, t.files[i]);
    OwnFree(a, t.blocks, t.free, t.files[i]);
    OwnedWithin(s.files, i);
  }

  lemma RemovePartitioned(a: Area, s: System, t: System, i: nat)
    requires Partitioned(a, s) && Next(a, s, t, Remove(i))
    ensures Partitioned(a, t)
  {
    hide FileOk, Units, AllOwned, UnitsSized;
    forall j | j in s.files && j != i
      ensures FileOk(a, t.blocks, t.free, s.files[j])
    {
      OtherFile(a, s, t, i, map[], j);
    }
    OwnedUpdate(s.files, i, s.files[i]);
    OwnedWithin(s.files, i);
    assert Owned(map[]) == {};
  }

  lemma CreatePartitioned(a: Area, s: System, t: System, i: nat)
    requires Partitioned(a, s) && Next(a, s, t, Create(i))
    ensures Partitioned(a, t)
  {
    hide FileOk, Units, UnitsSized;
    assert Owned(t.files[i].nodes) == {};
    forall n
      ensures n in AllOwned(t.files) <==> n in AllOwned(s.files)
    {
      if n in AllOwned(s.files) {
        var j :| j in s.files && n in Owned(s.files[j].nodes);
        assert t.files[j] == s.files[j];
      }
    }
  }

  lemma OwnFree(a: Area, blocks: seq<seq<Byte>>, free: seq<Region>, f: FileMap)
    requires FileOk(a, blocks, free, f)
    ensures Owned(f.nodes) !! Units(free)
  {
  }

  lemma OwnedWithin(files: map<nat, FileMap>, i: nat)
    requires i in files
    ensures Owned(files[i].nodes) <= AllOwned(files)
  {
  }

  // ----- Runs -----

  ghost predicate IsRun(a: Area, states: seq<System>, events: seq<Event>) {
    |states| == |events| + 1 && forall k :: 0 <= k < |events| ==> Next(a, states[k], states[k + 1], events[k])
  }

  /** File `j` reads the same in both states: same map, same plain lookups, same bytes. */
  ghost predicate Undisturbed(a: Area, s: System, t: System, j: nat) {
    j in s.files && j in t.files && t.files[j] == s.files[j]
    && forall x: nat :: ByteAt(a, t.blocks, t.files[j].nodes, x) == ByteAt(a, s.blocks, s.files[j].nodes, x)
  }

  lemma StepUndisturbed(a: Area, s: System, t: System, e: Event, j: nat)
    requires Partitioned(a, s) && Next(a, s, t, e) && j in s.files && e.file != j
    ensures Undisturbed(a, s, t, j)
  {
    hide FileOk, Units, AllOwned, UnitsSized, MaxBlocks, Leaf, Pc, BlockOfPos;
    if e.Work? {
      OtherFile(a, s, t, e.file, t.files[e.file].nodes, j);
    } else if e.Remove? {
      OtherFile(a, s, t, e.file, map[], j);
    }
    forall x: nat
      ensures ByteAt(a, t.blocks, s.files[j].nodes, x) == ByteAt(a, s.blocks, s.files[j].nodes, x)
    {
      var nodes := s.files[j].nodes;
      if a.unit > 0 && BlockOfPos(x, a.unit).0 < MaxBlocks(Pc(a)) {
        var p := Leaf(Pc(a), BlockOfPos(x, a.unit).0);
        assert p in nodes && !e.Create? ==> t.blocks[nodes[p]] == s.blocks[nodes[p]];
      }
    }
  }

  /** Over any run the partition holds, and a file that no step names is undisturbed. */
  lemma {:induction false} RunIsolated(a: Area, states: seq<System>, events: seq<Event>, j: nat)
    requires IsRun(a, states, events) && Partitioned(a, states[0])
    ensures Partitioned(a, states[|events|])
    ensures j in states[0].files && (forall k :: 0 <= k < |events| ==> events[k].file != j) ==>
      Undisturbed(a, states[0], states[|events|], j)
    decreases |events|
  {
    hide Partitioned, Next, ByteAt;
    if events != [] {
      assert Next(a, states[0], states[1], events[0]);
      StepPartitioned(a, states[0], states[1], events[0]);
      RunIsolated(a, states[1..], events[1..], j);
      assert states[1..][|events[1..]|] == states[|events|];
      if j in states[0].files && forall k :: 0 <= k < |events| ==> events[k].file != j {
        assert events[0].file != j;
        assert forall k :: 0 <= k < |events[1..]| ==> events[1..][k] == events[k + 1];
        StepUndisturbed(a, states[0], states[1], events[0], j);
      }
    }
  }

  /** An undisturbed coherent file gives the same plain lookups from disk and cache. */
  lemma UndisturbedLookups(a: Area, s: System, t: System, j: nat, bi: nat)
    requires Partitioned(a, s) && Partitioned(a, t) && Undisturbed(a, s, t, j) && bi < MaxBlocks(Pc(a))
    ensures Pc(a) > 0 && |s.blocks| == |t.blocks| == a.count && PtrsShaped(s.files[j].ptrs)
    ensures PlainLookup(a, Overlay(t.blocks, t.files[j]), t.files[j].ptrs, bi)
         == PlainLookup(a, Overlay(s.blocks, s.files[j]), s.files[j].ptrs, bi)
  {
    hide PlainLookup, Overlay, Coherent, MaxBlocks, Lookup;
    LookupRefines(a, s.blocks, s.files[j], bi);
    LookupRefines(a, t.blocks, t.files[j], bi);
  }

  // ----- The operations are steps -----

  /** What the operations that leave a valid file promise of the state is a step of that file. */
  lemma OperationIsWork(a: Area, s: State, t: State, i: nat, files: map<nat, FileMap>, g: FileMap,
                        off: nat, data: seq<Byte>, leaf: Pos)
    requires Quiet(s, t) || Extended(s, t, leaf) || Wrote(a, s, t, off, data) || XattrOnly(s, t)
    requires i in files && files[i].nodes == s.nodes && g.nodes == t.nodes
    requires FileOk(a, t.blocks, t.free, g)
    ensures Next(a, System(s.blocks, s.free, files), System(t.blocks, t.free, files[i := g]), Work(i))
  {
    hide Links, Roots, CacheOk, Shape;
  }

  /**
   A truncation is a step exactly when it is safe: no surviving pointer block has a freed child and no freed pointer
   block is in the cache. Otherwise the file left behind is not one that other files are safe from.
   */
  lemma TruncationIsWork(a: Area, s: State, t: State, i: nat, files: map<nat, FileMap>, from: nat)
    requires i in files && FileOk(a, s.blocks, s.free, files[i]) && Clean(s.blocks, files[i])
    requires files[i].nodes == s.nodes
    requires Cut(a, s, files[i], t, from)
    ensures var g := files[i].(ptrs := t.inode.ptrs, nodes := t.nodes);
      Next(a, System(s.blocks, s.free, files), System(t.blocks, t.free, files[i := g]), Work(i))
      <==> SafeCut(a, files[i], from)
  {
    hide Links, Roots, CacheOk, Shape, Partial, PtrsCleared, SafeCut, Clean, Coherent, Doomed, Counted;
    TruncatedOk(a, s, files[i], t.(nodes := s.nodes), t.inode.ptrs, from);
    assert files[i].(ptrs := t.inode.ptrs, nodes := t.nodes) == Truncated(a, files[i], t.inode.ptrs, from);
  }

  /**
   An unsafe truncation breaks isolation: once the block behind a stale slot holds data of another file, writing the
   slot back replaces those data by the slot's pointers.
   */
  lemma StaleOverwrites(a: Area, s: State, f: FileMap, t: State, from: nat, h: nat,
                        blocks: seq<seq<Byte>>, g: FileMap, bi: nat)
    requires FileOk(a, s.blocks, s.free, f) && s.nodes == f.nodes && Partial(s, t, Doomed(Pc(a), f.nodes, from))
    requires h < 4 && f.cache[h].Loaded? && from <= First(Pc(a), f.at[h])
    requires UnitsSized(a, blocks) && bi < MaxBlocks(Pc(a)) && Leaf(Pc(a), bi) in g.nodes
    requires f.at[h] in f.nodes && g.nodes[Leaf(Pc(a), bi)] == f.nodes[f.at[h]] < a.count
    ensures var n := f.nodes[f.at[h]];
      var pointers := FromWords(f.cache[h].words);
      && n in Units(t.free) && f.cache[h].ptr == Ptr(a, n) && |pointers| == a.unit == |blocks[n]|
      && forall k: nat :: k < a.unit ==>
           && ByteAt(a, blocks, g.nodes, Times(bi, a.unit) + k) == Some(blocks[n][k])
           && ByteAt(a, blocks[n := pointers], g.nodes, Times(bi, a.unit) + k) == Some(pointers[k])
  {
    hide Links, Roots, Shape, Partial, Words, FromWords, First, Leaf, MaxBlocks, Doomed, Ptr, Coherent, Units, ByteAt,
      Times;
    StaleSlot(a, s, f, t, from, h);
    SlotSizes(a, s.blocks, f, h);
    var n, pointers := f.nodes[f.at[h]], FromWords(f.cache[h].words);
    forall k: nat | k < a.unit
      ensures ByteAt(a, blocks, g.nodes, Times(bi, a.unit) + k) == Some(blocks[n][k])
      ensures ByteAt(a, blocks[n := pointers], g.nodes, Times(bi, a.unit) + k) == Some(pointers[k])
    {
      BlockByte(a, blocks, g.nodes, bi, k);
      BlockByte(a, blocks[n := pointers], g.nodes, bi, k);
    }
  }

  lemma BlockByte(a: Area, blocks: seq<seq<Byte>>, nodes: map<Pos, nat>, bi: nat, k: nat)
    requires bi < MaxBlocks(Pc(a)) && Leaf(Pc(a), bi) in nodes && nodes[Leaf(Pc(a), bi)] < |blocks|
    requires k < a.unit == |blocks[nodes[Leaf(Pc(a), bi)]]|
    ensures ByteAt(a, blocks, nodes, Times(bi, a.unit) + k) == Some(blocks[nodes[Leaf(Pc(a), bi)]][k])
  {
    hide Leaf, MaxBlocks, Times;
    BlockUnique(Times(bi, a.unit) + k, a.unit, bi, k);
  }

  lemma SlotSizes(a: Area, blocks: seq<seq<Byte>>, f: FileMap, h: nat)
    requires Coherent(a, blocks, f) && h < 4 && f.cache[h].Loaded?
    ensures |f.cache| == |f.at| == 4 && |FromWords(f.cache[h].words)| == a.unit > 0
  {
    hide Links, Roots, Shape, Words, FromWords, Ptr, SlotOk;
    SlotFacts(a, blocks, f, h);
  }

  /** A file of one block, block 12 of the area. */
  function OneBlock(a: Area): FileMap {
    FileMap([[Ptr(a, 12)] + seq(11, _ => 0), [0], [0], [0], [0]], 0, NO_CACHE, [Root(1), Root(1), Root(1), Root(1)],
            map[Pos(0, 0, 0) := 12])
  }

  /**
   The file of 14 blocks is flushed and cut to nothing; block 12, its old pointer block, is then handed to a new file
   that holds zeros. When the first file next writes its cached block back, the new file's first byte is no longer
   what it was: it is the start of a pointer.
   */
  lemma StaleExample(a: Area, inode: Inode, t: State, blocks: seq<seq<Byte>>, rest: seq<Region>)
    requires DataOk(a) && a.count >= 15 && UnitsSized(a, blocks) && 12 !in Units(rest)
    requires Partial(SampleState(a, inode), t, Doomed(Pc(a), SampleNodes(), 0)) && blocks[12] == seq(a.unit, _ => 0)
    ensures FileOk(a, SampleDisk(a), SampleFree(a), SampleFile(a, true)) && 12 in Units(t.free)
    ensures FileOk(a, blocks, rest, OneBlock(a))
    ensures var written := blocks[12 := FromWords(SampleWords(a))];
      exists x: nat :: x < a.unit && ByteAt(a, blocks, OneBlock(a).nodes, x) == Some(0)
                       && ByteAt(a, written, OneBlock(a).nodes, x) != Some(0)
  {
    hide Links, Roots, Shape, Partial, Words, FromWords, Doomed, Ptr, Coherent, Units, ByteAt, Times, SampleNodes,
      SampleWords, SampleDisk, SampleFree, SamplePtrs, Clean, MaxBlocks, Leaf, First;
    SampleOk(a, true);
    SampleAt(Root(1));
    SampleChild(a, 0);
    OneBlockOk(a, blocks, rest);
    LeafZero(a);
    StaleOverwrites(a, SampleState(a, inode), SampleFile(a, true), t, 0, 0, blocks, OneBlock(a), 0);
    var x := PointerByte(a);
    assert Times(0, a.unit) == 0 by { TimesIsMul(0, a.unit); }
    assert blocks[12][x] == 0;
    assert ByteAt(a, blocks, OneBlock(a).nodes, Times(0, a.unit) + x) == Some(0);
  }

  lemma LeafZero(a: Area)
    requires DataOk(a)
    ensures 0 < MaxBlocks(Pc(a)) && Leaf(Pc(a), 0) == Pos(0, 0, 0)
  {
    StartMonotone(Pc(a), 0, 5);
  }

  lemma OneBlockOk(a: Area, blocks: seq<seq<Byte>>, rest: seq<Region>)
    requires DataOk(a) && a.count > 12 && UnitsSized(a, blocks) && 12 !in Units(rest)
    ensures FileOk(a, blocks, rest, OneBlock(a))
  {
    hide Ptr;
  }

  /** Some byte of a pointer to a data block is not 0. */
  lemma PointerByte(a: Area) returns (x: nat)
    requires DataOk(a) && a.count >= 15
    ensures x < a.unit == |FromWords(SampleWords(a))| && FromWords(SampleWords(a))[x] != 0
  {
    hide SampleNodes, Words, FromWords;
    SampleLinked(a);
    SampleLength(a);
    var bytes := FromWords(SampleWords(a));
    FirstWord(bytes);
    assert Decode(bytes[0..WORD]) == SampleWords(a)[0] == Ptr(a, 13) > 0;
    ZeroBytes(bytes[0..WORD]);
    var k :| 0 <= k < WORD && bytes[0..WORD][k] != 0;
    assert bytes[k] != 0;
    x :| 0 <= x < |bytes| && bytes[x] != 0;
  }

  lemma {:induction false} ZeroBytes(s: seq<Byte>)
    ensures Decode(s) != 0 ==> exists k :: 0 <= k < |s| && s[k] != 0
  {
    if s != [] {
      ZeroBytes(s[1..]);
    }
  }

  lemma FirstWord(bytes: seq<Byte>)
    requires |bytes| >= WORD
    ensures |Words(bytes)| > 0 && Words(bytes)[0] == Decode(bytes[0..WORD])
  {
    hide Decode;
  }

  /** An inode that `mknod` has just written, opened with an empty cache, is a file without blocks. */
  lemma NewCreates(a: Area, s: System, i: nat, f: FileMap)
    requires Partitioned(a, s) && DataOk(a) && i !in s.files
    requires f.ptrs == NO_PTRS && f.xattrPtr == 0 && f.cache == NO_CACHE && |f.at| == 4 && f.nodes == map[]
    ensures Next(a, s, s.(files := s.files[i := f]), Create(i))
  {
    hide FileOk, Units, AllOwned;
    EmptyFile(a, s.blocks, s.free, f);
  }

  /** Giving back every block of a file, as `destroy` does, is a removal. */
  lemma GivenRemoves(a: Area, s: State, t: State, i: nat, files: map<nat, FileMap>)
    requires GivenBack(s, t.blocks, t.free, t.used, s.nodes.Keys) && UnitsSized(a, t.blocks)
    requires i in files && files[i].nodes == s.nodes
    ensures Next(a, System(s.blocks, s.free, files), System(t.blocks, t.free, files - {i}), Remove(i))
  {
    assert BlocksOf(s.nodes, s.nodes.Keys) == Owned(s.nodes);
    assert Owned(map[]) == {};
  }

  /** In memory: while one open file is worked on, every other open file keeps its validity. */
  twostate lemma OthersStayValid(dk: Donkey, f: DkFile, g: DkFile)
    requires old(g.Valid(dk)) && old(f.Valid(dk)) && dk.Valid()
    requires old(Owned(f.nodes)) !! old(Owned(g.nodes))
    requires Stepped(old(f.St(dk)), f.St(dk))
    requires unchanged(g) && dk.freeSlots == old(dk.freeSlots)
    requires f.inode.ino != g.inode.ino && f.inode.ino == old(f.inode).ino
    requires |dk.slots| == |old(dk.slots)|
    requires forall k :: 0 <= k < |dk.slots| && k != f.inode.ino - ROOT_INODE ==> dk.slots[k] == old(dk.slots)[k]
    ensures g.Valid(dk) && Owned(f.nodes) !! Owned(g.nodes)
    ensures |dk.blocks| == |old(dk.blocks)|
    ensures forall p :: p in g.nodes ==> g.nodes[p] < |dk.blocks| && dk.blocks[g.nodes[p]] == old(dk.blocks)[g.nodes[p]]
  {
    hide SystemOk, FileOk, Clean, Units, Owned, InodeIn, InodeFits, Stepped;
    UnitsSizedNow(dk);
    StateKept(dk.data, old(f.St(dk)), f.St(dk), g.Map());
  }

  /** The same when the other file is destroyed, whether or not all of its blocks are given back. */
  twostate lemma OthersSurvive(dk: Donkey, f: DkFile, g: DkFile, gone: set<Pos>)
    requires old(g.Valid(dk)) && old(f.Valid(dk)) && dk.Valid()
    requires old(Owned(f.nodes)) !! old(Owned(g.nodes))
    requires GivenBack(old(f.St(dk)), dk.blocks, dk.freeBlocks, dk.sb.usedDbs, gone)
    requires unchanged(g) && f.inode.ino != g.inode.ino && f.inode.ino == old(f.inode).ino
    requires Units(dk.freeSlots) == old(Units(dk.freeSlots)) + {f.inode.ino - ROOT_INODE}
    requires |dk.slots| == |old(dk.slots)|
    requires forall k :: 0 <= k < |dk.slots| && k != f.inode.ino - ROOT_INODE ==> dk.slots[k] == old(dk.slots)[k]
    ensures g.Valid(dk) && |dk.blocks| == |old(dk.blocks)|
    ensures forall p :: p in g.nodes ==> g.nodes[p] < |dk.blocks| && dk.blocks[g.nodes[p]] == old(dk.blocks)[g.nodes[p]]
  {
    hide SystemOk, FileOk, Clean, Units, Owned, InodeIn, InodeFits, GivenBack;
    UnitsSizedNow(dk);
    GivenKept(dk.data, old(f.St(dk)), dk.blocks, dk.freeBlocks, dk.sb.usedDbs, gone, g.Map());
  }

  /** A file with blocks of its own across a step of another file. */
  lemma StateKept(a: Area, s: State, t: State, g: FileMap)
    requires FileOk(a, s.blocks, s.free, g) && Stepped(s, t) && UnitsSized(a, t.blocks)
    requires Owned(s.nodes) !! Owned(g.nodes)
    ensures FileOk(a, t.blocks, t.free, g) && Owned(t.nodes) !! Owned(g.nodes) && |t.blocks| == |s.blocks|
    ensures Clean(s.blocks, g) ==> Clean(t.blocks, g)
    ensures forall p :: p in g.nodes ==> g.nodes[p] < |t.blocks| && t.blocks[g.nodes[p]] == s.blocks[g.nodes[p]]
  {
    hide Links, Roots, CacheOk, Units;
    forall p | p in g.nodes
      ensures g.nodes[p] < |t.blocks| && g.nodes[p] !in Units(t.free) && t.blocks[g.nodes[p]] == s.blocks[g.nodes[p]]
    {
      assert g.nodes[p] in Owned(g.nodes);
      assert g.nodes[p] !in Units(s.free) + Owned(s.nodes);
    }
    FileKept(a, s.blocks, s.free, t.blocks, t.free, g);
    assert forall n :: n in Owned(t.nodes) ==> n in Units(s.free) + Owned(s.nodes);
  }

  /** And across its destruction. */
  lemma GivenKept(a: Area, s: State, blocks: seq<seq<Byte>>, free: seq<Region>, used: nat, gone: set<Pos>, g: FileMap)
    requires FileOk(a, s.blocks, s.free, g) && GivenBack(s, blocks, free, used, gone) && UnitsSized(a, blocks)
    requires Owned(s.nodes) !! Owned(g.nodes)
    ensures FileOk(a, blocks, free, g) && |blocks| == |s.blocks| && (Clean(s.blocks, g) ==> Clean(blocks, g))
    ensures forall p :: p in g.nodes ==> g.nodes[p] < |blocks| && blocks[g.nodes[p]] == s.blocks[g.nodes[p]]
  {
    hide Links, Roots, CacheOk, Units;
    assert BlocksOf(s.nodes, gone) <= Owned(s.nodes);
    forall p | p in g.nodes
      ensures g.nodes[p] < |blocks| && g.nodes[p] !in Units(free) && blocks[g.nodes[p]] == s.blocks[g.nodes[p]]
    {
      assert g.nodes[p] in Owned(g.nodes);
    }
    FileKept(a, s.blocks, s.free, blocks, free, g);
  }

  lemma FileKept(a: Area, blocks: seq<seq<Byte>>, free: seq<Region>, after: seq<seq<Byte>>, rest: seq<Region>,
                 g: FileMap)
    requires FileOk(a, blocks, free, g) && |after| == |blocks| && UnitsSized(a, after)
    requires forall p :: p in g.nodes ==>
      g.nodes[p] < |blocks| && g.nodes[p] !in Units(rest) && after[g.nodes[p]] == blocks[g.nodes[p]]
    ensures FileOk(a, after, rest, g) && (Clean(blocks, g) ==> Clean(after, g))
  {
    hide Links, Roots, CacheOk, Units, Clean;
    CoherentFrame(a, blocks, after, g);
    CleanFrame(a, blocks, after, g);
  }

  lemma CleanFrame(a: Area, blocks: seq<seq<Byte>>, after: seq<seq<Byte>>, f: FileMap)
    requires Coherent(a, blocks, f) && |after| == |blocks|
    requires forall p :: p in f.nodes ==> f.nodes[p] < |blocks| && after[f.nodes[p]] == blocks[f.nodes[p]]
    ensures Clean(blocks, f) ==> Clean(after, f)
  {
    hide Links, Roots, Words;
  }

  /** A freshly formatted device has all its blocks free and no file. */
  lemma FreshPartition(a: Area, blocks: seq<seq<Byte>>)
    requires UnitsSized(a, blocks)
    ensures Partitioned(a, System(blocks, [Region(0, a.count)], map[]))
  {
    assert [Region(0, a.count)][1..] == [];
  }
}
