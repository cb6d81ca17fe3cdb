/**
 The block map of one file as a value: inode pointers, the write-back pointer cache, and the ghost map
 from positions to block numbers that the two together represent.
 */
module BlockMap {
  import opened Arith
  import opened Codec
  import opened Areas
  import opened Layout
  import opened Positions
  import opened Results

  /** One cached pointer block. Slot `h - 1` serves nodes of height `h` of all four trees. */
  datatype Slot = Empty | Loaded(ptr: nat, words: seq<nat>)

  /** `at[h - 1]` is the position of the block held in slot `h - 1`. */
  datatype FileMap = FileMap(ptrs: seq<seq<nat>>, xattrPtr: nat, cache: seq<Slot>, at: seq<Pos>, nodes: map<Pos, nat>)

  /** A data area whose blocks can hold pointers. */
  predicate DataOk(a: Area) {
    BlockSizeOk(a.unit) && a.base > 0 && End(a) < WORD_LIMIT
  }

  /** Pointers per block. */
  function Pc(a: Area): nat {
    a.unit / WORD
  }

  /** The word that stands for position `p`. */
  function Entry(a: Area, nodes: map<Pos, nat>, p: Pos): nat {
    if p in nodes then Ptr(a, nodes[p]) else 0
  }

  /** Positions are real, each block serves one position, and every node hangs from a present parent. */
  ghost predicate Shape(a: Area, nodes: map<Pos, nat>) {
    && (forall p :: p in nodes ==> ValidPos(Pc(a), p) && nodes[p] < a.count)
    && (forall p, q :: p in nodes && q in nodes && nodes[p] == nodes[q] ==> p == q)
    && (forall p :: p in nodes && IsTree(p.tree) && p.height < p.tree ==> Pc(a) > 0 && Parent(Pc(a), p) in nodes)
  }

  /** The word in the inode for a position that hangs from the inode itself. */
  function RootWord(f: FileMap, p: Pos): nat
    requires PtrsShaped(f.ptrs) && Top(p)
  {
    if p.tree == XATTR then f.xattrPtr else f.ptrs[p.tree][p.index]
  }

  predicate Top(c: Pos) {
    (c.tree == 0 && c.height == 0 && c.index < DIRECT) || (IsTree(c.tree) && c == Root(c.tree)) || c == Pos(XATTR, 0, 0)
  }

  ghost predicate Roots(a: Area, f: FileMap) {
    PtrsShaped(f.ptrs) && forall p :: Top(p) ==> RootWord(f, p) == Entry(a, f.nodes, p)
  }

  /** Slot `h` holds a copy of node `p`. */
  predicate Holds(f: FileMap, h: int, p: Pos) {
    0 <= h < |f.cache| && h < |f.at| && f.cache[h].Loaded? && f.at[h] == p
  }

  predicate SlotOk(a: Area, f: FileMap, h: nat)
    requires h < |f.cache| && h < |f.at|
  {
    f.cache[h].Loaded? ==>
      f.at[h] in f.nodes && f.at[h].height == h + 1 && f.cache[h].ptr == Ptr(a, f.nodes[f.at[h]])
  }

  predicate CacheOk(a: Area, f: FileMap) {
    |f.cache| == |f.at| == 4 && SlotOk(a, f, 0) && SlotOk(a, f, 1) && SlotOk(a, f, 2) && SlotOk(a, f, 3)
  }

  /** The contents of node `p` on disk. */
  function DiskWords(blocks: seq<seq<Byte>>, nodes: map<Pos, nat>, p: Pos): seq<nat> {
    if p in nodes && nodes[p] < |blocks| then Words(blocks[nodes[p]]) else []
  }

  /** The pointers held by node `p`: its cached copy if there is one, and the disk block otherwise. */
  function WordsAt(blocks: seq<seq<Byte>>, f: FileMap, p: Pos): seq<nat> {
    if Holds(f, p.height - 1, p) then f.cache[p.height - 1].words else DiskWords(blocks, f.nodes, p)
  }

  predicate Linked(a: Area, nodes: map<Pos, nat>, p: Pos, words: seq<nat>) {
    && |words| == Pc(a) && p.height > 0
    && forall i :: 0 <= i < Pc(a) ==> words[i] == Entry(a, nodes, Child(Pc(a), p, i))
  }

  ghost predicate Links(a: Area, blocks: seq<seq<Byte>>, f: FileMap) {
    forall p :: p in f.nodes && p.height > 0 ==> Linked(a, f.nodes, p, WordsAt(blocks, f, p))
  }

  /** Disk, cache and inode together represent exactly `f.nodes`. */
  ghost predicate Coherent(a: Area, blocks: seq<seq<Byte>>, f: FileMap) {
    && DataOk(a) && UnitsSized(a, blocks)
    && Shape(a, f.nodes) && Roots(a, f) && CacheOk(a, f)
    && Links(a, blocks, f)
  }

  lemma EntryZero(a: Area, nodes: map<Pos, nat>, p: Pos)
    requires DataOk(a)
    ensures Entry(a, nodes, p) == 0 <==> p !in nodes
  {
  }

  // ----- Frame -----

  /** A file depends on its own blocks only. */
  lemma CoherentFrame(a: Area, blocks: seq<seq<Byte>>, after: seq<seq<Byte>>, f: FileMap)
    requires Coherent(a, blocks, f) && UnitsSized(a, after)
    requires forall p :: p in f.nodes ==> after[f.nodes[p]] == blocks[f.nodes[p]]
    ensures Coherent(a, after, f)
  {
    hide Linked, Words, Roots;
    forall p | p in f.nodes && p.height > 0
      ensures WordsAt(after, f, p) == WordsAt(blocks, f, p)
    {
    }
  }

  // ----- The cache -----

  /** The disk block behind slot `h` is up to date. */
  predicate SlotClean(blocks: seq<seq<Byte>>, f: FileMap, h: nat) {
    h < |f.cache| && h < |f.at| && f.cache[h].Loaded? ==> DiskWords(blocks, f.nodes, f.at[h]) == f.cache[h].words
  }

  predicate Clean(blocks: seq<seq<Byte>>, f: FileMap) {
    SlotClean(blocks, f, 0) && SlotClean(blocks, f, 1) && SlotClean(blocks, f, 2) && SlotClean(blocks, f, 3)
  }

  /** The blocks after slot `h` is written back. */
  function Evicted(blocks: seq<seq<Byte>>, f: FileMap, h: nat): (r: seq<seq<Byte>>)
    ensures |r| == |blocks|
  {
    if h < |f.cache| && h < |f.at| && f.cache[h].Loaded? && f.at[h] in f.nodes && f.nodes[f.at[h]] < |blocks|
    then blocks[f.nodes[f.at[h]] := FromWords(f.cache[h].words)] else blocks
  }

  lemma LinkedWords(a: Area, nodes: map<Pos, nat>, p: Pos, words: seq<nat>)
    requires DataOk(a) && Shape(a, nodes) && Linked(a, nodes, p, words)
    ensures AreWords(words) && WORD * |words| == a.unit
    ensures Words(FromWords(words)) == words
  {
    hide Words, FromWords;
    forall i | 0 <= i < |words|
      ensures words[i] < WORD_LIMIT
    {
      var c := Child(Pc(a), p, i);
      if c in nodes {
        PtrInside(a, nodes[c], End(a));
      }
    }
    PtrBlockRoundTrip(words);
  }

  /** What a loaded slot is known to hold. */
  lemma SlotFacts(a: Area, blocks: seq<seq<Byte>>, f: FileMap, h: nat)
    requires Coherent(a, blocks, f) && h < 4 && f.cache[h].Loaded?
    ensures var q := f.at[h];
      && Holds(f, h, q) && q in f.nodes && q.height == h + 1 && f.cache[h].ptr == Ptr(a, f.nodes[q])
      && f.nodes[q] < |blocks| && ValidPos(Pc(a), q)
      && WordsAt(blocks, f, q) == f.cache[h].words
      && Linked(a, f.nodes, q, f.cache[h].words)
      && Words(FromWords(f.cache[h].words)) == f.cache[h].words
      && |FromWords(f.cache[h].words)| == a.unit
  {
    hide Words, FromWords, Linked, Roots;
    var q := f.at[h];
    assert SlotOk(a, f, h);
    assert Linked(a, f.nodes, q, WordsAt(blocks, f, q));
    LinkedWords(a, f.nodes, q, f.cache[h].words);
  }

  /** On disk, writing slot `h` back changes the words of its own node only. */
  lemma EvictedWords(a: Area, blocks: seq<seq<Byte>>, f: FileMap, h: nat)
    requires Coherent(a, blocks, f) && h < 4 && f.cache[h].Loaded?
    ensures var after, q := Evicted(blocks, f, h), f.at[h];
      && UnitsSized(a, after) && q in f.nodes && q.height == h + 1
      && DiskWords(after, f.nodes, q) == f.cache[h].words
      && forall p :: p in f.nodes && p != q ==>
           after[f.nodes[p]] == blocks[f.nodes[p]] && DiskWords(after, f.nodes, p) == DiskWords(blocks, f.nodes, p)
  {
    hide Words, FromWords, Linked, Roots, Links, WordsAt;
    SlotFacts(a, blocks, f, h);
  }

  /** Slots serve nodes of different heights, so cleaning one leaves the others as they were. */
  lemma EvictedSlots(a: Area, blocks: seq<seq<Byte>>, f: FileMap, h: nat, k: nat)
    requires Coherent(a, blocks, f) && h < 4 && k < 4
    ensures SlotClean(Evicted(blocks, f, h), f, h)
    ensures SlotClean(blocks, f, k) ==> SlotClean(Evicted(blocks, f, h), f, k)
  {
    hide Words, FromWords, Linked, Roots, Links, Shape, WordsAt, DiskWords;
    if f.cache[h].Loaded? {
      EvictedWords(a, blocks, f, h);
      hide Evicted;
      assert SlotOk(a, f, k);
    }
  }

  /** Words as the cache shows them are the same before and after a slot is written back. */
  lemma EvictedLinks(a: Area, blocks: seq<seq<Byte>>, f: FileMap, h: nat)
    requires Coherent(a, blocks, f) && h < 4 && f.cache[h].Loaded?
    ensures Links(a, Evicted(blocks, f, h), f)
  {
    hide Words, FromWords, Linked, Roots, Shape, DiskWords;
    EvictedWords(a, blocks, f, h);
    hide Evicted;
    assert SlotOk(a, f, h);
    forall p | p in f.nodes && p.height > 0
      ensures Linked(a, f.nodes, p, WordsAt(Evicted(blocks, f, h), f, p))
    {
      assert Linked(a, f.nodes, p, WordsAt(blocks, f, p));
    }
  }

  /** Writing a slot back leaves the represented map as it was and the slot clean. */
  lemma EvictKeeps(a: Area, blocks: seq<seq<Byte>>, f: FileMap, h: nat)
    requires Coherent(a, blocks, f) && h < 4
    ensures Coherent(a, Evicted(blocks, f, h), f)
    ensures SlotClean(Evicted(blocks, f, h), f, h)
    ensures forall k :: 0 <= k < 4 && SlotClean(blocks, f, k) ==> SlotClean(Evicted(blocks, f, h), f, k)
    ensures forall p :: p in f.nodes && p.height == 0 ==> Evicted(blocks, f, h)[f.nodes[p]] == blocks[f.nodes[p]]
    ensures Clean(blocks, f) ==> Clean(Evicted(blocks, f, h), f)
  {
    hide Linked, Roots, Shape, Links, WordsAt, DiskWords, SlotClean, Words, FromWords;
    forall k | 0 <= k < 4
      ensures SlotClean(Evicted(blocks, f, h), f, h)
      ensures SlotClean(blocks, f, k) ==> SlotClean(Evicted(blocks, f, h), f, k)
    {
      EvictedSlots(a, blocks, f, h, k);
    }
    if f.cache[h].Loaded? {
      EvictedWords(a, blocks, f, h);
      EvictedLinks(a, blocks, f, h);
    }
  }

  /** `f` with slot `h` holding node `q` with contents `words`. */
  function WithSlot(a: Area, f: FileMap, h: nat, q: Pos, words: seq<nat>): (g: FileMap)
    requires h < |f.cache| && h < |f.at| && q in f.nodes
    ensures g.nodes == f.nodes && g.ptrs == f.ptrs && g.xattrPtr == f.xattrPtr
    ensures |g.cache| == |f.cache| && |g.at| == |f.at|
  {
    f.(cache := f.cache[h := Loaded(Ptr(a, f.nodes[q]), words)], at := f.at[h := q])
  }

  /** What the cache shows is the same after a clean slot is replaced by a block just read. */
  lemma LoadedWords(a: Area, blocks: seq<seq<Byte>>, f: FileMap, h: nat, q: Pos, p: Pos)
    requires CacheOk(a, f) && h < 4 && SlotClean(blocks, f, h)
    requires q in f.nodes && q.height == h + 1 && !Holds(f, h, q) && p in f.nodes && p.height > 0
    ensures WordsAt(blocks, WithSlot(a, f, h, q, DiskWords(blocks, f.nodes, q)), p) == WordsAt(blocks, f, p)
  {
    hide Ptr, DiskWords;
  }

  lemma LoadedSlots(a: Area, blocks: seq<seq<Byte>>, f: FileMap, h: nat, q: Pos)
    requires CacheOk(a, f) && h < 4 && q in f.nodes && q.height == h + 1
    ensures var g := WithSlot(a, f, h, q, DiskWords(blocks, f.nodes, q));
      && CacheOk(a, g) && SlotClean(blocks, g, h) && Holds(g, h, q) && (Clean(blocks, f) ==> Clean(blocks, g))
  {
    hide Ptr, DiskWords;
  }

  /** Replacing a clean slot by a block just read leaves the represented map as it was. */
  lemma LoadKeeps(a: Area, blocks: seq<seq<Byte>>, f: FileMap, h: nat, q: Pos)
    requires Coherent(a, blocks, f) && h < 4 && SlotClean(blocks, f, h)
    requires q in f.nodes && q.height == h + 1 && !Holds(f, h, q)
    ensures var g := WithSlot(a, f, h, q, DiskWords(blocks, f.nodes, q));
      && Coherent(a, blocks, g) && SlotClean(blocks, g, h) && Holds(g, h, q)
      && (Clean(blocks, f) ==> Clean(blocks, g))
  {
    hide Linked, Roots, Ptr, Shape, WithSlot, WordsAt, DiskWords, SlotOk, SlotClean, Holds, Clean;
    var g := WithSlot(a, f, h, q, DiskWords(blocks, f.nodes, q));
    RootsSame(a, f, g);
    LoadedSlots(a, blocks, f, h, q);
    forall p | p in f.nodes && p.height > 0
      ensures WordsAt(blocks, g, p) == WordsAt(blocks, f, p)
    {
      LoadedWords(a, blocks, f, h, q, p);
    }
  }

  lemma RootsSame(a: Area, f: FileMap, g: FileMap)
    requires Roots(a, f) && g.nodes == f.nodes && g.ptrs == f.ptrs && g.xattrPtr == f.xattrPtr
    ensures Roots(a, g)
  {
    forall p | Top(p)
      ensures RootWord(g, p) == RootWord(f, p)
    {
    }
  }

  const NO_CACHE: seq<Slot> := [Empty, Empty, Empty, Empty]

  /** On a clean map the cache shows what the disk holds. */
  lemma CleanWords(a: Area, blocks: seq<seq<Byte>>, f: FileMap, p: Pos)
    requires CacheOk(a, f) && Clean(blocks, f) && p in f.nodes && p.height > 0
    ensures WordsAt(blocks, f, p) == DiskWords(blocks, f.nodes, p)
  {
    hide DiskWords;
  }

  /** A clean map may be read with an empty cache: nothing is lost by closing and reopening. */
  lemma ReopenKeeps(a: Area, blocks: seq<seq<Byte>>, f: FileMap)
    requires Coherent(a, blocks, f) && Clean(blocks, f)
    ensures Coherent(a, blocks, f.(cache := NO_CACHE)) && Clean(blocks, f.(cache := NO_CACHE))
  {
    hide Linked, Roots, Shape, DiskWords, WordsAt, SlotClean;
    var g := f.(cache := NO_CACHE);
    RootsSame(a, f, g);
    EmptyCache(a, blocks, g);
    forall p | p in f.nodes && p.height > 0
      ensures WordsAt(blocks, g, p) == WordsAt(blocks, f, p)
    {
      CleanWords(a, blocks, f, p);
      CleanWords(a, blocks, g, p);
    }
  }

  lemma EmptyCache(a: Area, blocks: seq<seq<Byte>>, f: FileMap)
    requires f.cache == NO_CACHE && |f.at| == 4
    ensures CacheOk(a, f) && Clean(blocks, f)
  {
  }

  // ----- Adding and removing nodes -----

  /** A block that no position uses. */
  predicate Fresh(a: Area, nodes: map<Pos, nat>, n: nat) {
    n < a.count && forall p :: p in nodes ==> nodes[p] != n
  }

  lemma {:induction false} EmptyLinked(a: Area, nodes: map<Pos, nat>, c: Pos)
    requires DataOk(a) && Shape(a, nodes) && c !in nodes && c.height > 0 && IsTree(c.tree) && c.height <= c.tree
    ensures Linked(a, nodes, c, ZeroWords(Pc(a)))
  {
    forall i | 0 <= i < Pc(a)
      ensures Child(Pc(a), c, i) !in nodes
    {
      ParentOfChild(Pc(a), c, i);
    }
  }

  /** Adding `c` leaves the pointers of nodes other than its parent unchanged. */
  lemma LinkedUnlessParent(a: Area, nodes: map<Pos, nat>, c: Pos, n: nat, p: Pos, words: seq<nat>)
    requires DataOk(a) && Linked(a, nodes, p, words) && Parent(Pc(a), c) != p
    ensures Linked(a, nodes[c := n], p, words)
  {
    forall i | 0 <= i < Pc(a)
      ensures Entry(a, nodes[c := n], Child(Pc(a), p, i)) == words[i]
    {
      ParentOfChild(Pc(a), p, i);
    }
  }

  lemma LinkedParent(a: Area, nodes: map<Pos, nat>, c: Pos, n: nat, p: Pos, words: seq<nat>, i: nat)
    requires DataOk(a) && Linked(a, nodes, p, words) && i < Pc(a) && c == Child(Pc(a), p, i)
    ensures Linked(a, nodes[c := n], p, words[i := Ptr(a, n)])
  {
    forall j | 0 <= j < Pc(a)
      ensures Entry(a, nodes[c := n], Child(Pc(a), p, j)) == words[i := Ptr(a, n)][j]
    {
      if Child(Pc(a), p, j) == c {
        ChildInjective(Pc(a), p, i, p, j);
      }
    }
  }

  lemma ShapeAdd(a: Area, nodes: map<Pos, nat>, c: Pos, n: nat)
    requires DataOk(a) && Shape(a, nodes) && c !in nodes && Fresh(a, nodes, n) && ValidPos(Pc(a), c)
    requires IsTree(c.tree) && c.height < c.tree ==> Parent(Pc(a), c) in nodes
    ensures Shape(a, nodes[c := n])
  {
  }

  /** The map after a block of zeros is cached for the new node `c`; data blocks need no slot. */
  function WithZeros(a: Area, f: FileMap, c: Pos): FileMap
    requires |f.cache| == |f.at| == 4 && c.height <= 4 && c in f.nodes
  {
    if c.height == 0 then f else WithSlot(a, f, c.height - 1, c, ZeroWords(Pc(a)))
  }

  /** The links after node `c` is added, if only `c` and its parent changed their contents. */
  lemma LinksAdd(a: Area, blocks: seq<seq<Byte>>, f: FileMap, g: FileMap, c: Pos, n: nat, parent: Option<Pos>)
    requires DataOk(a) && Shape(a, f.nodes) && Links(a, blocks, f) && c !in f.nodes
    requires g.nodes == f.nodes[c := n]
    requires forall q :: q in f.nodes && q.height > 0 && Some(q) != parent ==>
      WordsAt(blocks, g, q) == WordsAt(blocks, f, q) && Parent(Pc(a), c) != q
    requires parent.Some? ==> Linked(a, g.nodes, parent.value, WordsAt(blocks, g, parent.value))
    requires c.height > 0 ==> IsTree(c.tree) && c.height <= c.tree && WordsAt(blocks, g, c) == ZeroWords(Pc(a))
    ensures Links(a, blocks, g)
  {
    hide Words, FromWords, Linked, Shape, WordsAt, Parent;
    forall q | q in g.nodes && q.height > 0
      ensures Linked(a, g.nodes, q, WordsAt(blocks, g, q))
    {
      if q == c {
        EmptyLinked(a, f.nodes, c);
        ParentAbove(a, c);
        LinkedUnlessParent(a, f.nodes, c, n, c, ZeroWords(Pc(a)));
      } else if Some(q) != parent {
        LinkedUnlessParent(a, f.nodes, c, n, q, WordsAt(blocks, f, q));
      }
    }
  }

  lemma ParentAbove(a: Area, c: Pos)
    requires DataOk(a)
    ensures Parent(Pc(a), c) != c
  {
  }

  /** Hanging a new node below a cached parent. */
  function Hung(a: Area, f: FileMap, p: Pos, i: nat, n: nat): FileMap
    requires |f.cache| == |f.at| == 4 && 1 <= p.height <= 4
    requires Holds(f, p.height - 1, p) && i < |f.cache[p.height - 1].words|
  {
    var h := p.height - 1;
    var words: seq<nat> := f.cache[h].words[i := Ptr(a, n)];
    var c := Child(Pc(a), p, i);
    WithZeros(a, f.(cache := f.cache[h := Loaded(f.cache[h].ptr, words)], nodes := f.nodes[c := n]), c)
  }

  lemma HungKeeps(a: Area, blocks: seq<seq<Byte>>, f: FileMap, p: Pos, i: nat, n: nat)
    requires Coherent(a, blocks, f) && Fresh(a, f.nodes, n)
    requires 1 <= p.height <= 4 && Holds(f, p.height - 1, p)
    requires i < Pc(a) && |f.cache[p.height - 1].words| == Pc(a) && f.cache[p.height - 1].words[i] == 0
    requires p.height > 1 ==> SlotClean(blocks, f, p.height - 2)
    ensures Coherent(a, blocks, Hung(a, f, p, i, n))
    ensures Child(Pc(a), p, i) !in f.nodes
  {
    hide Words, FromWords, Linked, Parent, Shape, Roots, Links, SlotClean;
    var pc := Pc(a);
    var h, c := p.height - 1, Child(pc, p, i);
    var g := Hung(a, f, p, i, n);
    SlotFacts(a, blocks, f, h);
    HungChild(a, f.nodes, p, i, f.cache[h].words);
    ShapeAdd(a, f.nodes, c, n);
    LinkedParent(a, f.nodes, c, n, p, f.cache[h].words, i);
    HungWords(a, blocks, f, p, i, n);
    LinksAdd(a, blocks, f, g, c, n, Some(p));
    RootsKept(a, f, g, c, n);
  }

  lemma HungChild(a: Area, nodes: map<Pos, nat>, p: Pos, i: nat, words: seq<nat>)
    requires DataOk(a) && Linked(a, nodes, p, words) && ValidPos(Pc(a), p) && i < Pc(a) && words[i] == 0
    ensures var c := Child(Pc(a), p, i); c !in nodes && ValidPos(Pc(a), c) && Parent(Pc(a), c) == p
    ensures IsTree(p.tree) && p.height <= p.tree
  {
    EntryZero(a, nodes, Child(Pc(a), p, i));
    ChildValid(Pc(a), p, i);
    ParentOfChild(Pc(a), p, i);
  }

  lemma HungWords(a: Area, blocks: seq<seq<Byte>>, f: FileMap, p: Pos, i: nat, n: nat)
    requires |f.cache| == |f.at| == 4 && CacheOk(a, f)
    requires 1 <= p.height <= 4 && Holds(f, p.height - 1, p) && i < |f.cache[p.height - 1].words|
    requires p.height > 1 ==> SlotClean(blocks, f, p.height - 2)
    requires Child(Pc(a), p, i) !in f.nodes
    ensures var g, h := Hung(a, f, p, i, n), p.height - 1;
      && CacheOk(a, g) && g.nodes == f.nodes[Child(Pc(a), p, i) := n]
      && WordsAt(blocks, g, p) == f.cache[h].words[i := Ptr(a, n)]
      && (forall q :: q in f.nodes && q.height > 0 && q != p ==> WordsAt(blocks, g, q) == WordsAt(blocks, f, q))
      && (p.height > 1 ==> WordsAt(blocks, g, Child(Pc(a), p, i)) == ZeroWords(Pc(a)))
      && g.ptrs == f.ptrs && g.xattrPtr == f.xattrPtr
  {
    hide Words, FromWords, Ptr, DiskWords, WordsAt;
    var g, c := Hung(a, f, p, i, n), Child(Pc(a), p, i);
    HungCache(a, f, p, i, n);
    forall q | q in f.nodes && q.height > 0 && q != p
      ensures WordsAt(blocks, g, q) == WordsAt(blocks, f, q)
    {
      HungOther(a, blocks, f, p, i, n, q);
    }
    HeldWords(blocks, g, p);
    if p.height > 1 {
      HeldWords(blocks, g, c);
    }
  }

  lemma HeldWords(blocks: seq<seq<Byte>>, f: FileMap, p: Pos)
    requires Holds(f, p.height - 1, p)
    ensures WordsAt(blocks, f, p) == f.cache[p.height - 1].words
  {
  }

  lemma HungCache(a: Area, f: FileMap, p: Pos, i: nat, n: nat)
    requires |f.cache| == |f.at| == 4 && CacheOk(a, f)
    requires 1 <= p.height <= 4 && Holds(f, p.height - 1, p) && i < |f.cache[p.height - 1].words|
    requires Child(Pc(a), p, i) !in f.nodes
    ensures var g, h, c := Hung(a, f, p, i, n), p.height - 1, Child(Pc(a), p, i);
      && CacheOk(a, g) && Holds(g, h, p) && g.cache[h].words == f.cache[h].words[i := Ptr(a, n)]
      && (p.height > 1 ==> Holds(g, h - 1, c) && g.cache[h - 1].words == ZeroWords(Pc(a)))
      && (forall k :: 0 <= k < 4 && k != h && k != h - 1 ==> g.cache[k] == f.cache[k] && g.at[k] == f.at[k])
  {
    hide Ptr;
  }

  /** Nodes whose slot is replaced show the disk words afterwards, which are the same, as the slot was clean. */
  lemma HungOther(a: Area, blocks: seq<seq<Byte>>, f: FileMap, p: Pos, i: nat, n: nat, q: Pos)
    requires |f.cache| == |f.at| == 4 && CacheOk(a, f)
    requires 1 <= p.height <= 4 && Holds(f, p.height - 1, p) && i < |f.cache[p.height - 1].words|
    requires p.height > 1 ==> SlotClean(blocks, f, p.height - 2)
    requires Child(Pc(a), p, i) !in f.nodes && q in f.nodes && q.height > 0 && q != p
    ensures WordsAt(blocks, Hung(a, f, p, i, n), q) == WordsAt(blocks, f, q)
  {
    hide Ptr, Words, Hung;
    HungCache(a, f, p, i, n);
    HungNodes(a, f, p, i, n);
  }

  lemma HungNodes(a: Area, f: FileMap, p: Pos, i: nat, n: nat)
    requires |f.cache| == |f.at| == 4 && 1 <= p.height <= 4
    requires Holds(f, p.height - 1, p) && i < |f.cache[p.height - 1].words|
    ensures var g := Hung(a, f, p, i, n); g.nodes == f.nodes[Child(Pc(a), p, i) := n] && |g.cache| == |g.at| == 4
  {
  }

  lemma RootsKept(a: Area, f: FileMap, g: FileMap, c: Pos, n: nat)
    requires Roots(a, f) && g.nodes == f.nodes[c := n] && g.ptrs == f.ptrs && g.xattrPtr == f.xattrPtr && !Top(c)
    ensures Roots(a, g)
  {
    forall p | Top(p)
      ensures RootWord(g, p) == Entry(a, g.nodes, p)
    {
      assert RootWord(f, p) == Entry(a, f.nodes, p);
    }
  }

  /** `ptrs[level][index] = ptr`. */
  function WithPtr(ptrs: seq<seq<nat>>, level: nat, index: nat, ptr: nat): (r: seq<seq<nat>>)
    requires PtrsShaped(ptrs) && level < 5 && index < |ptrs[level]|
    ensures PtrsShaped(r)
  {
    var row: seq<nat> := ptrs[level][index := ptr];
    ptrs[level := row]
  }

  function WithTop(f: FileMap, c: Pos, ptr: nat): FileMap
    requires PtrsShaped(f.ptrs) && Top(c)
  {
    if c.tree == XATTR then f.(xattrPtr := ptr) else f.(ptrs := WithPtr(f.ptrs, c.tree, c.index, ptr))
  }

  /** A new node hanging from the inode. */
  function Planted(a: Area, f: FileMap, c: Pos, n: nat): FileMap
    requires |f.cache| == |f.at| == 4 && PtrsShaped(f.ptrs) && Top(c)
  {
    WithZeros(a, WithTop(f, c, Ptr(a, n)).(nodes := f.nodes[c := n]), c)
  }

  lemma TopFacts(a: Area, nodes: map<Pos, nat>, c: Pos)
    requires DataOk(a) && Top(c) && Shape(a, nodes)
    ensures ValidPos(Pc(a), c) && !(IsTree(c.tree) && c.height < c.tree)
    ensures forall p :: p in nodes && p.height > 0 ==> Parent(Pc(a), c) != p
  {
  }

  lemma PlantedKeeps(a: Area, blocks: seq<seq<Byte>>, f: FileMap, c: Pos, n: nat)
    requires Coherent(a, blocks, f) && Top(c) && c !in f.nodes && Fresh(a, f.nodes, n)
    requires c.height > 0 ==> SlotClean(blocks, f, c.height - 1)
    ensures Coherent(a, blocks, Planted(a, f, c, n))
  {
    hide Words, FromWords, Linked, Parent, Shape, Links, SlotClean;
    var g := Planted(a, f, c, n);
    TopFacts(a, f.nodes, c);
    ShapeAdd(a, f.nodes, c, n);
    PlantedWords(a, blocks, f, c, n);
    LinksAdd(a, blocks, f, g, c, n, None);
    RootsPlanted(a, f, g, c, n);
  }

  lemma PlantedWords(a: Area, blocks: seq<seq<Byte>>, f: FileMap, c: Pos, n: nat)
    requires CacheOk(a, f) && PtrsShaped(f.ptrs) && Top(c) && c !in f.nodes
    requires c.height > 0 ==> SlotClean(blocks, f, c.height - 1)
    ensures var g := Planted(a, f, c, n);
      && CacheOk(a, g) && g.nodes == f.nodes[c := n]
      && (forall q :: q in f.nodes && q.height > 0 ==> WordsAt(blocks, g, q) == WordsAt(blocks, f, q))
      && (c.height > 0 ==> WordsAt(blocks, g, c) == ZeroWords(Pc(a)))
      && g.ptrs == WithTop(f, c, Ptr(a, n)).ptrs && g.xattrPtr == WithTop(f, c, Ptr(a, n)).xattrPtr
  {
    hide Words, FromWords, Ptr, DiskWords, WordsAt;
    var g := Planted(a, f, c, n);
    PlantedCache(a, f, c, n);
    forall q | q in f.nodes && q.height > 0
      ensures WordsAt(blocks, g, q) == WordsAt(blocks, f, q)
    {
      PlantedOther(a, blocks, f, c, n, q);
    }
    if c.height > 0 {
      HeldWords(blocks, g, c);
    }
  }

  lemma PlantedCache(a: Area, f: FileMap, c: Pos, n: nat)
    requires CacheOk(a, f) && PtrsShaped(f.ptrs) && Top(c) && c !in f.nodes
    ensures var g := Planted(a, f, c, n);
      && CacheOk(a, g) && g.nodes == f.nodes[c := n]
      && (c.height > 0 ==> Holds(g, c.height - 1, c) && g.cache[c.height - 1].words == ZeroWords(Pc(a)))
      && (forall k :: 0 <= k < 4 && k != c.height - 1 ==> g.cache[k] == f.cache[k] && g.at[k] == f.at[k])
  {
    hide Ptr;
  }

  lemma PlantedOther(a: Area, blocks: seq<seq<Byte>>, f: FileMap, c: Pos, n: nat, q: Pos)
    requires CacheOk(a, f) && PtrsShaped(f.ptrs) && Top(c) && c !in f.nodes && q in f.nodes && q.height > 0
    requires c.height > 0 ==> SlotClean(blocks, f, c.height - 1)
    ensures WordsAt(blocks, Planted(a, f, c, n), q) == WordsAt(blocks, f, q)
  {
    hide Ptr, Words, Planted;
    PlantedCache(a, f, c, n);
  }

  lemma RootsPlanted(a: Area, f: FileMap, g: FileMap, c: Pos, n: nat)
    requires Roots(a, f) && Top(c) && g.nodes == f.nodes[c := n]
    requires g.ptrs == WithTop(f, c, Ptr(a, n)).ptrs && g.xattrPtr == WithTop(f, c, Ptr(a, n)).xattrPtr
    ensures Roots(a, g)
  {
    forall p | Top(p)
      ensures RootWord(g, p) == Entry(a, g.nodes, p)
    {
      assert RootWord(f, p) == Entry(a, f.nodes, p);
    }
  }

  // ----- Lookup -----

  /** The block that backs data block `bi`, according to the ghost map. */
  function Lookup(a: Area, nodes: map<Pos, nat>, bi: nat): Option<nat>
    requires bi < MaxBlocks(Pc(a))
  {
    var p := Leaf(Pc(a), bi);
    if p in nodes then Some(Ptr(a, nodes[p])) else None
  }

  /** The block number of a pointer, if it points at the start of a block of the area. */
  function BlockOf(a: Area, ptr: nat): Option<nat> {
    if a.unit > 0 && ptr >= a.base && (ptr - a.base) % a.unit == 0 && (ptr - a.base) / a.unit < a.count
    then Some((ptr - a.base) / a.unit) else None
  }

  lemma BlockOfPtr(a: Area, n: nat)
    requires a.unit > 0 && n < a.count
    ensures BlockOf(a, Ptr(a, n)) == Some(n)
  {
    TimesIsMul(n, a.unit);
    DivUnique(n, 0, a.unit);
  }

  /** The plain lookup on disk blocks alone, with no cache and no ghost state. */
  function Descend(a: Area, disk: seq<seq<Byte>>, ptr: nat, h: nat, off: nat): Option<nat>
    requires Pc(a) > 0 && |disk| == a.count
    decreases h
  {
    if ptr == 0 then None
    else if h == 0 then Some(ptr)
    else
      var n := BlockOf(a, ptr);
      var m := Span(Pc(a), h - 1);
      if n.None? || off / m >= |Words(disk[n.value])| then None
      else Descend(a, disk, Words(disk[n.value])[off / m], h - 1, off % m)
  }

  function PlainLookup(a: Area, disk: seq<seq<Byte>>, ptrs: seq<seq<nat>>, bi: nat): Option<nat>
    requires Pc(a) > 0 && |disk| == a.count && PtrsShaped(ptrs) && bi < MaxBlocks(Pc(a))
  {
    var t := TreeOf(Pc(a), bi);
    var off := bi - Start(Pc(a), t);
    if t == 0 then (if ptrs[0][off] == 0 then None else Some(ptrs[0][off]))
    else Descend(a, disk, ptrs[t][0], t, off)
  }

  /** The disk with the cached blocks written over it. */
  function Overlay(blocks: seq<seq<Byte>>, f: FileMap): (r: seq<seq<Byte>>)
    ensures |r| == |blocks|
  {
    Evicted(Evicted(Evicted(Evicted(blocks, f, 0), f, 1), f, 2), f, 3)
  }

  lemma OverlayClean(a: Area, blocks: seq<seq<Byte>>, f: FileMap)
    requires Coherent(a, blocks, f)
    ensures Coherent(a, Overlay(blocks, f), f) && Clean(Overlay(blocks, f), f)
    ensures forall p :: p in f.nodes && p.height == 0 ==> Overlay(blocks, f)[f.nodes[p]] == blocks[f.nodes[p]]
  {
    hide Links, SlotClean, Evicted, Roots, CacheOk;
    EvictKeeps(a, blocks, f, 0);
    var b1 := Evicted(blocks, f, 0);
    EvictKeeps(a, b1, f, 1);
    var b2 := Evicted(b1, f, 1);
    EvictKeeps(a, b2, f, 2);
    EvictKeeps(a, Evicted(b2, f, 2), f, 3);
  }

  /** Nothing is mapped below an absent node. */
  lemma {:induction false} AbsentBelow(a: Area, nodes: map<Pos, nat>, p: Pos, off: nat)
    requires DataOk(a) && Shape(a, nodes) && p !in nodes && IsTree(p.tree) && p.height <= p.tree
    requires off < Span(Pc(a), p.height)
    ensures Pos(p.tree, 0, Times(p.index, Span(Pc(a), p.height)) + off) !in nodes
    decreases p.height
  {
    var pc := Pc(a);
    if p.height == 0 {
      TimesOne(p.index);
    } else {
      SplitOffset(pc, p.height, off);
      var m := Span(pc, p.height - 1);
      var c := Child(pc, p, off / m);
      ParentOfChild(pc, p, off / m);
      LeafBelowChild(pc, p, off);
      AbsentBelow(a, nodes, c, off % m);
    }
  }

  /** On a clean map the disk blocks hold the links. */
  lemma CleanLinked(a: Area, disk: seq<seq<Byte>>, f: FileMap, p: Pos)
    requires Coherent(a, disk, f) && Clean(disk, f) && p in f.nodes && p.height > 0
    ensures f.nodes[p] < |disk| == a.count && Linked(a, f.nodes, p, Words(disk[f.nodes[p]]))
    ensures BlockOf(a, Ptr(a, f.nodes[p])) == Some(f.nodes[p])
  {
    hide Words, FromWords, Linked, Roots, BlockOf, Ptr, ValidPos, Parent, Times;
    assert Linked(a, f.nodes, p, WordsAt(disk, f, p));
    BlockOfPtr(a, f.nodes[p]);
  }

  /**
   The disk alone shows the file's map exactly when the cache is clean: truncation and destruction walk the disk, so
   this is what they need of the cache.
   */
  lemma DiskShowsMap(a: Area, disk: seq<seq<Byte>>, f: FileMap)
    requires Coherent(a, disk, f)
    ensures Clean(disk, f) <==>
      forall p :: p in f.nodes && p.height > 0 ==> Linked(a, f.nodes, p, DiskWords(disk, f.nodes, p))
  {
    hide Words, Linked, Roots, Shape, DiskWords, Ptr;
    forall h | 0 <= h < 4
      ensures f.cache[h].Loaded? && Linked(a, f.nodes, f.at[h], DiskWords(disk, f.nodes, f.at[h])) ==>
        SlotClean(disk, f, h)
      ensures f.cache[h].Loaded? ==> f.at[h] in f.nodes && f.at[h].height > 0
    {
      if f.cache[h].Loaded? {
        SlotFacts(a, disk, f, h);
        if Linked(a, f.nodes, f.at[h], DiskWords(disk, f.nodes, f.at[h])) {
          LinkedSame(a, f.nodes, f.at[h], DiskWords(disk, f.nodes, f.at[h]), f.cache[h].words);
        }
      }
    }
    if Clean(disk, f) {
      forall p | p in f.nodes && p.height > 0
        ensures Linked(a, f.nodes, p, DiskWords(disk, f.nodes, p))
      {
        assert Linked(a, f.nodes, p, WordsAt(disk, f, p));
      }
    }
  }

  /** The links determine the words of a node. */
  lemma LinkedSame(a: Area, nodes: map<Pos, nat>, p: Pos, words: seq<nat>, others: seq<nat>)
    requires Linked(a, nodes, p, words) && Linked(a, nodes, p, others)
    ensures words == others
  {
  }

  /**
   A block just hung below a cached parent is not yet on disk: until the slot is written back a walk of the disk
   misses it, so destroying an unlinked file, which is never flushed, would not give it back.
   */
  lemma HungUnseen(a: Area, disk: seq<seq<Byte>>, f: FileMap, p: Pos, i: nat, n: nat)
    requires Coherent(a, disk, f) && Fresh(a, f.nodes, n)
    requires 1 <= p.height <= 4 && Holds(f, p.height - 1, p) && SlotClean(disk, f, p.height - 1)
    requires i < Pc(a) && |f.cache[p.height - 1].words| == Pc(a) && f.cache[p.height - 1].words[i] == 0
    ensures var g, c := Hung(a, f, p, i, n), Child(Pc(a), p, i);
      && c in g.nodes && p in g.nodes && !Clean(disk, g)
      && DiskWords(disk, g.nodes, p) == f.cache[p.height - 1].words
        && !Linked(a, g.nodes, p, DiskWords(disk, g.nodes, p))
  {
    hide Words, Roots, Shape, Links;
    var g, c := Hung(a, f, p, i, n), Child(Pc(a), p, i);
    SlotFacts(a, disk, f, p.height - 1);
    EntryZero(a, g.nodes, c);
    assert c != p;
    assert DiskWords(disk, g.nodes, p) == f.cache[p.height - 1].words;
    assert g.cache[p.height - 1].words[i] == Ptr(a, n) > 0;
  }

  function FoundAt(a: Area, nodes: map<Pos, nat>, p: Pos): Option<nat> {
    if p in nodes then Some(Ptr(a, nodes[p])) else None
  }

  /** On a clean map the plain descent from a node finds exactly the leaf the ghost map records. */
  lemma {:induction false} DescendIsLookup(a: Area, disk: seq<seq<Byte>>, f: FileMap, p: Pos, off: nat)
    requires Coherent(a, disk, f) && Clean(disk, f) && IsTree(p.tree) && p.height <= p.tree
    requires off < Span(Pc(a), p.height)
    ensures Pc(a) > 0 && |disk| == a.count
    ensures Descend(a, disk, Entry(a, f.nodes, p), p.height, off)
         == FoundAt(a, f.nodes, Pos(p.tree, 0, Times(p.index, Span(Pc(a), p.height)) + off))
    decreases p.height
  {
    hide BlockOf, Words, Ptr, Clean, Span, Times, Linked, Roots, Links, CacheOk, Shape;
    var pc := Pc(a);
    EntryZero(a, f.nodes, p);
    if p !in f.nodes {
      AbsentBelow(a, f.nodes, p, off);
    } else if p.height == 0 {
      SpanZero(pc);
      TimesOne(p.index);
    } else {
      CleanLinked(a, disk, f, p);
      SplitOffset(pc, p.height, off);
      LeafBelowChild(pc, p, off);
      var m := Span(pc, p.height - 1);
      LinkedAt(a, f.nodes, p, Words(disk[f.nodes[p]]), off / m);
      DescendIsLookup(a, disk, f, Child(pc, p, off / m), off % m);
    }
  }

  lemma SpanZero(pc: nat)
    ensures Span(pc, 0) == 1
  {
  }

  lemma LinkedAt(a: Area, nodes: map<Pos, nat>, p: Pos, words: seq<nat>, i: nat)
    requires Linked(a, nodes, p, words) && i < Pc(a)
    ensures |words| == Pc(a) && words[i] == Entry(a, nodes, Child(Pc(a), p, i))
  {
  }

  /** On a clean map the ghost map is the plain lookup on disk. */
  lemma CleanLookup(a: Area, disk: seq<seq<Byte>>, f: FileMap, bi: nat)
    requires Coherent(a, disk, f) && Clean(disk, f) && bi < MaxBlocks(Pc(a))
    ensures Pc(a) > 0 && |disk| == a.count && PtrsShaped(f.ptrs)
    ensures PlainLookup(a, disk, f.ptrs, bi) == Lookup(a, f.nodes, bi)
  {
    hide Descend, Clean, Span, Links, Times, Ptr;
    var pc := Pc(a);
    var t := TreeOf(pc, bi);
    var off := bi - Start(pc, t);
    if t == 0 {
      EntryZero(a, f.nodes, Pos(0, 0, off));
      assert RootWord(f, Pos(0, 0, off)) == f.ptrs[0][off];
    } else {
      assert RootWord(f, Root(t)) == f.ptrs[t][0];
      TimesZero(Span(pc, t));
      DescendIsLookup(a, disk, f, Root(t), off);
    }
  }

  lemma TimesZero(m: nat)
    ensures Times(0, m) == 0
  {
  }

  /** The write-back cache refines a plain map: the ghost map is the plain lookup on the overlaid disk. */
  lemma LookupRefines(a: Area, blocks: seq<seq<Byte>>, f: FileMap, bi: nat)
    requires Coherent(a, blocks, f) && bi < MaxBlocks(Pc(a))
    ensures Pc(a) > 0 && |blocks| == a.count && PtrsShaped(f.ptrs)
    ensures PlainLookup(a, Overlay(blocks, f), f.ptrs, bi) == Lookup(a, f.nodes, bi)
  {
    OverlayClean(a, blocks, f);
    CleanLookup(a, Overlay(blocks, f), f, bi);
  }
}
