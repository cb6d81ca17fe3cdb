/** What one file owns, and how an operation on it may change the data area. */
module Frames {
  import opened Codec
  import opened Regions
  import opened Areas
  import opened Layout
  import opened Positions
  import opened BlockMap

  function Owned(nodes: map<Pos, nat>): set<nat> {
    set p | p in nodes :: nodes[p]
  }

  /** A coherent file none of whose blocks is free. */
  ghost predicate FileOk(a: Area, blocks: seq<seq<Byte>>, free: seq<Region>, f: FileMap) {
    Coherent(a, blocks, f) && forall p :: p in f.nodes ==> f.nodes[p] !in Units(free)
  }

  /** The part of the system an operation on one file works on. */
  datatype State = State(blocks: seq<seq<Byte>>, free: seq<Region>, used: nat, inode: Inode, nodes: map<Pos, nat>)

  /** Blocks move between one file and the free list, and nothing outside the two is touched. */
  ghost predicate Moved(blocks: seq<seq<Byte>>, free: seq<Region>, nodes: map<Pos, nat>,
                        after: seq<seq<Byte>>, rest: seq<Region>, kept: map<Pos, nat>) {
    && |after| == |blocks|
    && Units(rest) + Owned(kept) == Units(free) + Owned(nodes)
    && forall m :: 0 <= m < |blocks| && m !in Units(free) && m !in Owned(nodes) ==> after[m] == blocks[m]
  }

  ghost predicate Stepped(s: State, t: State) {
    Moved(s.blocks, s.free, s.nodes, t.blocks, t.free, t.nodes)
  }

  /** Both counters moved with the number of nodes. */
  predicate Counted(s: State, t: State) {
    && t.inode.blocks - |t.nodes| == s.inode.blocks - |s.nodes|
    && t.used - |t.nodes| == s.used - |s.nodes|
  }

  /** Nodes were only added, with at most `leaf` as a new data block, and old data blocks kept their bytes. */
  ghost predicate Extended(s: State, t: State, leaf: Pos) {
    && Stepped(s, t) && Counted(s, t)
    && (forall p :: p in s.nodes ==> p in t.nodes && t.nodes[p] == s.nodes[p])
    && (forall p :: p in t.nodes && p.height == 0 && p !in s.nodes ==> p == leaf)
    && (forall p :: p in s.nodes && p.height == 0 && s.nodes[p] < |s.blocks| && |t.blocks| == |s.blocks| ==>
          t.blocks[s.nodes[p]] == s.blocks[s.nodes[p]])
    && t.inode == s.inode.(blocks := t.inode.blocks, ptrs := t.inode.ptrs)
  }

  lemma ExtendedSame(s: State, leaf: Pos)
    ensures Extended(s, s, leaf)
  {
  }

  lemma ExtendedTrans(s: State, t: State, u: State, leaf: Pos)
    requires Extended(s, t, leaf) && Extended(t, u, leaf)
    ensures Extended(s, u, leaf)
  {
    assert forall m :: m !in Units(s.free) && m !in Owned(s.nodes) ==> m !in Units(s.free) + Owned(s.nodes);
    forall p | p in s.nodes && p.height == 0 && s.nodes[p] < |s.blocks|
      ensures u.blocks[s.nodes[p]] == s.blocks[s.nodes[p]]
    {
      assert t.nodes[p] == s.nodes[p];
    }
  }

  // ----- Steps -----

  lemma AllocFile(a: Area, blocks: seq<seq<Byte>>, free: seq<Region>, after: seq<seq<Byte>>, rest: seq<Region>, n: nat,
                  f: FileMap)
    requires FileOk(a, blocks, free, f) && Alloced(a, blocks, free, after, rest, n)
    ensures FileOk(a, after, rest, f) && Fresh(a, f.nodes, n) && n !in Units(rest)
    ensures forall p :: p in f.nodes ==> f.nodes[p] < |blocks| == |after| && after[f.nodes[p]] == blocks[f.nodes[p]]
    ensures forall h :: 0 <= h < 4 && SlotClean(blocks, f, h) ==> SlotClean(after, f, h)
  {
    hide Links, Roots, Words;
    CoherentFrame(a, blocks, after, f);
  }

  lemma OwnedAdd(nodes: map<Pos, nat>, c: Pos, n: nat)
    requires c !in nodes
    ensures Owned(nodes[c := n]) == Owned(nodes) + {n} && |nodes[c := n]| == |nodes| + 1
  {
    forall x | x in Owned(nodes)
      ensures x in Owned(nodes[c := n])
    {
      var p :| p in nodes && nodes[p] == x;
      assert nodes[c := n][p] == x;
    }
    assert nodes[c := n][c] == n;
    assert nodes[c := n].Keys == nodes.Keys + {c};
  }

  /** Writing slots back changes only pointer blocks that the file owns. */
  lemma EvictFile(a: Area, blocks: seq<seq<Byte>>, free: seq<Region>, f: FileMap, h: nat)
    requires FileOk(a, blocks, free, f) && h < 4
    ensures FileOk(a, Evicted(blocks, f, h), free, f) && SlotClean(Evicted(blocks, f, h), f, h)
    ensures Clean(blocks, f) ==> Clean(Evicted(blocks, f, h), f)
    ensures forall p :: p in f.nodes && p.height == 0 ==> Evicted(blocks, f, h)[f.nodes[p]] == blocks[f.nodes[p]]
    ensures forall m :: 0 <= m < |blocks| && m !in Owned(f.nodes) ==> Evicted(blocks, f, h)[m] == blocks[m]
  {
    hide Coherent, SlotClean, Clean;
    EvictKeeps(a, blocks, f, h);
  }

  /** Adding node `c` in block `n` just allocated. */
  lemma AddedStep(s: State, t: State, c: Pos, n: nat, a: Area, mid: seq<seq<Byte>>, leaf: Pos)
    requires c !in s.nodes && t.nodes == s.nodes[c := n] && (c.height == 0 ==> c == leaf)
    requires Alloced(a, s.blocks, s.free, mid, t.free, n) && |s.blocks| == |mid| == |t.blocks| == a.count
    requires forall p :: p in s.nodes ==> s.nodes[p] < a.count && s.nodes[p] !in Units(s.free)
    requires forall m :: 0 <= m < a.count && m !in Owned(s.nodes) ==> t.blocks[m] == mid[m]
    requires forall p :: p in s.nodes && p.height == 0 ==> t.blocks[s.nodes[p]] == mid[s.nodes[p]]
    requires t.used == s.used + 1 && t.inode == s.inode.(blocks := s.inode.blocks + 1, ptrs := t.inode.ptrs)
    ensures Extended(s, t, leaf)
  {
    hide Stepped, Alloced, Counted, Units, Owned;
    AddedMoves(s, t, c, n, a, mid);
    AddedCounts(s, t, c, n);
  }

  lemma AddedCounts(s: State, t: State, c: Pos, n: nat)
    requires c !in s.nodes && t.nodes == s.nodes[c := n]
    requires t.used == s.used + 1 && t.inode.blocks == s.inode.blocks + 1
    ensures Counted(s, t)
  {
    hide Owned;
    OwnedAdd(s.nodes, c, n);
  }

  lemma AddedMoves(s: State, t: State, c: Pos, n: nat, a: Area, mid: seq<seq<Byte>>)
    requires c !in s.nodes && t.nodes == s.nodes[c := n]
    requires Alloced(a, s.blocks, s.free, mid, t.free, n) && |s.blocks| == |mid| == |t.blocks| == a.count
    requires forall p :: p in s.nodes ==> s.nodes[p] < a.count && s.nodes[p] !in Units(s.free)
    requires forall m :: 0 <= m < a.count && m !in Owned(s.nodes) ==> t.blocks[m] == mid[m]
    ensures Stepped(s, t)
    ensures forall p :: p in s.nodes ==> s.nodes[p] < a.count && mid[s.nodes[p]] == s.blocks[s.nodes[p]]
  {
    hide Units, Owned;
    OwnedAdd(s.nodes, c, n);
    assert Units(t.free) + Owned(t.nodes) == Units(s.free) + Owned(s.nodes);
  }

  // ----- Cache movements -----

  /** Only pointer blocks were written back: map, inode and data blocks are the same. */
  ghost predicate Quiet(s: State, t: State) {
    && t == s.(blocks := t.blocks) && |t.blocks| == |s.blocks|
    && (forall m :: 0 <= m < |s.blocks| && m !in Owned(s.nodes) ==> t.blocks[m] == s.blocks[m])
    && (forall p :: p in s.nodes && p.height == 0 && s.nodes[p] < |s.blocks| ==>
      t.blocks[s.nodes[p]] == s.blocks[s.nodes[p]])
  }

  lemma QuietTrans(s: State, t: State, u: State)
    requires Quiet(s, t) && Quiet(t, u)
    ensures Quiet(s, u)
  {
  }

  lemma QuietExtends(s: State, t: State, leaf: Pos)
    requires Quiet(s, t)
    ensures Extended(s, t, leaf)
  {
  }

  /** Evicting slot `h` and loading node `q` into it. */
  lemma LoadStep(a: Area, s: State, f: FileMap, h: nat, q: Pos)
    requires FileOk(a, s.blocks, s.free, f) && s.nodes == f.nodes
    requires h < 4 && q in f.nodes && q.height == h + 1 && !Holds(f, h, q)
    ensures |f.cache| == |f.at| == 4
    ensures var b := Evicted(s.blocks, f, h);
      var g := WithSlot(a, f, h, q, DiskWords(b, f.nodes, q));
      && FileOk(a, b, s.free, g) && Holds(g, h, q) && (Clean(s.blocks, f) ==> Clean(b, g))
      && Quiet(s, s.(blocks := b))
  {
    hide SlotClean, Clean, Evicted, Links, Shape, Roots, CacheOk, DiskWords, Holds;
    FileSlots(a, s.blocks, f);
    EvictFile(a, s.blocks, s.free, f, h);
    LoadKeeps(a, Evicted(s.blocks, f, h), f, h, q);
  }

  lemma FileSlots(a: Area, blocks: seq<seq<Byte>>, f: FileMap)
    requires Coherent(a, blocks, f)
    ensures |f.cache| == |f.at| == 4
  {
  }

  /** A slot with the pointer of node `q` holds node `q`. */
  lemma SlotByPtr(a: Area, blocks: seq<seq<Byte>>, free: seq<Region>, f: FileMap, h: nat, q: Pos)
    requires FileOk(a, blocks, free, f) && h < 4 && |f.cache| == 4 && q in f.nodes
    ensures f.cache[h].Loaded? && f.cache[h].ptr == Ptr(a, f.nodes[q]) <==> Holds(f, h, q)
  {
    hide Links, Roots, Words, Ptr, Linked;
    if f.cache[h].Loaded? {
      SlotFacts(a, blocks, f, h);
      if f.cache[h].ptr == Ptr(a, f.nodes[q]) {
        PtrInjective(a, f.nodes[q], f.nodes[f.at[h]]);
      }
    }
  }

  lemma SpliceAll(u: seq<Byte>, v: seq<Byte>)
    requires |u| == |v|
    ensures Splice(u, 0, v) == v
  {
  }

  // ----- Growth -----

  /** Hanging a fresh block from the inode, once the slot it will use has been written back. */
  lemma PlantStep(a: Area, s: State, f: FileMap, mid: seq<seq<Byte>>, rest: seq<Region>, n: nat, c: Pos, leaf: Pos)
    requires FileOk(a, s.blocks, s.free, f) && s.nodes == f.nodes && f.ptrs == s.inode.ptrs
    requires Top(c) && c.tree != XATTR && c !in f.nodes && (c.height == 0 ==> c == leaf)
    requires c.height > 0 ==> SlotClean(s.blocks, f, c.height - 1)
    requires Alloced(a, s.blocks, s.free, mid, rest, n)
    ensures |f.cache| == |f.at| == 4 && PtrsShaped(f.ptrs)
    ensures var g := Planted(a, f, c, n);
      && FileOk(a, mid, rest, g)
      && (c.height > 0 ==> Holds(g, c.height - 1, c))
      && Extended(s, State(mid, rest, s.used + 1, s.inode.(blocks := s.inode.blocks + 1, ptrs := g.ptrs), g.nodes),
        leaf)
  {
    hide Links, Words, Shape, SlotClean, Ptr, Extended;
    AllocFile(a, s.blocks, s.free, mid, rest, n, f);
    PlantedKeeps(a, mid, f, c, n);
    var g := Planted(a, f, c, n);
    AddedStep(s, State(mid, rest, s.used + 1, s.inode.(blocks := s.inode.blocks + 1, ptrs := g.ptrs), g.nodes), c, n, a,
      mid, leaf);
  }

  /** The blocks after the slot of the children of `p` is written back. */
  function ChildEvicted(blocks: seq<seq<Byte>>, f: FileMap, p: Pos): (b: seq<seq<Byte>>)
    ensures |b| == |blocks|
  {
    if p.height > 1 then Evicted(blocks, f, p.height - 2) else blocks
  }

  /** Hanging a fresh block below the cached node `p`. */
  lemma HangStep(a: Area, s: State, f: FileMap, mid: seq<seq<Byte>>, rest: seq<Region>, n: nat, p: Pos, i: nat,
                 leaf: Pos)
    requires FileOk(a, s.blocks, s.free, f) && s.nodes == f.nodes && |f.cache| == |f.at| == 4
    requires 1 <= p.height <= 4 && Holds(f, p.height - 1, p)
    requires i < Pc(a) && |f.cache[p.height - 1].words| == Pc(a) && f.cache[p.height - 1].words[i] == 0
    requires p.height == 1 ==> Child(Pc(a), p, i) == leaf
    requires Alloced(a, s.blocks, s.free, mid, rest, n)
    ensures FileOk(a, mid, rest, f)
    ensures var g, b := Hung(a, f, p, i, n), ChildEvicted(mid, f, p);
      && FileOk(a, b, rest, g)
      && (p.height > 1 ==> Holds(g, p.height - 2, Child(Pc(a), p, i)))
      && Extended(s, State(b, rest, s.used + 1, s.inode.(blocks := s.inode.blocks + 1), g.nodes), leaf)
    ensures p.height > 1 && f.cache[p.height - 2].Loaded? ==> f.cache[p.height - 2].ptr != Ptr(a, n)
  {
    hide Links, Words, Shape, Roots, SlotClean, Ptr, Extended, Evicted;
    AllocFile(a, s.blocks, s.free, mid, rest, n, f);
    if p.height > 1 {
      EvictFile(a, mid, rest, f, p.height - 2);
      FreshPtr(a, mid, f, p.height - 2, n);
    }
    var g, b := Hung(a, f, p, i, n), ChildEvicted(mid, f, p);
    FreshStays(a, mid, f, n);
    HungKeeps(a, b, f, p, i, n);
    AddedStep(s, State(b, rest, s.used + 1, s.inode.(blocks := s.inode.blocks + 1), g.nodes), Child(Pc(a), p, i), n, a,
      mid, leaf);
  }

  lemma FreshStays(a: Area, blocks: seq<seq<Byte>>, f: FileMap, n: nat)
    requires Coherent(a, blocks, f)
    ensures forall p :: p in f.nodes ==> f.nodes[p] < a.count
  {
  }

  /** No cached block is the fresh one. */
  lemma FreshPtr(a: Area, blocks: seq<seq<Byte>>, f: FileMap, h: nat, n: nat)
    requires Coherent(a, blocks, f) && h < 4 && Fresh(a, f.nodes, n)
    ensures f.cache[h].Loaded? ==> f.cache[h].ptr != Ptr(a, n)
  {
    hide Links, Words, Shape, Roots, Ptr, Linked;
    if f.cache[h].Loaded? && f.cache[h].ptr == Ptr(a, n) {
      SlotFacts(a, blocks, f, h);
      PtrInjective(a, n, f.nodes[f.at[h]]);
    }
  }

  /** Overwriting a data or xattr block changes no pointers. */
  lemma LeafWrite(a: Area, blocks: seq<seq<Byte>>, free: seq<Region>, f: FileMap, p: Pos, u: seq<Byte>)
    requires FileOk(a, blocks, free, f) && p in f.nodes && p.height == 0 && |u| == a.unit
    ensures f.nodes[p] < |blocks| == a.count
    ensures FileOk(a, blocks[f.nodes[p] := u], free, f)
    ensures Clean(blocks, f) ==> Clean(blocks[f.nodes[p] := u], f)
  {
    hide Words, Linked, Roots, Ptr, ValidPos;
    var after := blocks[f.nodes[p] := u];
    forall q | q in f.nodes && q.height > 0
      ensures DiskWords(after, f.nodes, q) == DiskWords(blocks, f.nodes, q)
    {
    }
    forall h | 0 <= h < 4 && f.cache[h].Loaded?
      ensures DiskWords(after, f.nodes, f.at[h]) == DiskWords(blocks, f.nodes, f.at[h])
    {
      assert SlotOk(a, f, h);
    }
  }

  // ----- The xattr block -----

  /** Only the xattr block came or went; pointer blocks may have been written back. */
  ghost predicate XattrOnly(s: State, t: State) {
    && Stepped(s, t)
    && (forall p :: p != XATTR_POS ==> (p in t.nodes <==> p in s.nodes))
    && (forall p :: p in s.nodes && p != XATTR_POS ==> t.nodes[p] == s.nodes[p])
    && (forall p :: p in s.nodes && p != XATTR_POS && p.height == 0 && s.nodes[p] < |s.blocks| ==>
          t.blocks[s.nodes[p]] == s.blocks[s.nodes[p]])
    && t.inode == s.inode.(blocks := t.inode.blocks, xattrPtr := t.inode.xattrPtr)
    && t.inode.blocks - |t.nodes| >= s.inode.blocks - |s.nodes|
  }

  lemma XattrOnlyTrans(s: State, t: State, u: State)
    requires XattrOnly(s, t) && XattrOnly(t, u)
    ensures XattrOnly(s, u)
  {
    assert forall m :: m !in Units(s.free) && m !in Owned(s.nodes) ==> m !in Units(s.free) + Owned(s.nodes);
    forall p | p in s.nodes && p != XATTR_POS && p.height == 0 && s.nodes[p] < |s.blocks|
      ensures u.blocks[s.nodes[p]] == s.blocks[s.nodes[p]]
    {
      assert t.nodes[p] == s.nodes[p];
    }
  }

  lemma QuietXattr(s: State, t: State)
    requires Quiet(s, t)
    ensures XattrOnly(s, t)
  {
  }

  lemma XattrAdd(a: Area, s: State, f: FileMap, mid: seq<seq<Byte>>, rest: seq<Region>, n: nat)
    requires FileOk(a, s.blocks, s.free, f) && s.nodes == f.nodes && XATTR_POS !in f.nodes
    requires Alloced(a, s.blocks, s.free, mid, rest, n)
    ensures var g := f.(xattrPtr := Ptr(a, n), nodes := f.nodes[XATTR_POS := n]);
      && FileOk(a, mid, rest, g) && (Clean(s.blocks, f) ==> Clean(mid, g))
      && XattrOnly(s, State(mid, rest, s.used + 1, s.inode.(blocks := s.inode.blocks + 1, xattrPtr := Ptr(a, n)),
        g.nodes))
      && |g.nodes| == |f.nodes| + 1
  {
    hide Links, Words, Shape, SlotClean, Ptr, XattrOnly, Alloced;
    var g := f.(xattrPtr := Ptr(a, n), nodes := f.nodes[XATTR_POS := n]);
    AllocFile(a, s.blocks, s.free, mid, rest, n, f);
    PlantedKeeps(a, mid, f, XATTR_POS, n);
    assert g == Planted(a, f, XATTR_POS, n);
    CleanAdd(a, mid, f, n);
    XattrAdded(a, s, mid, rest, n);
  }

  lemma XattrAdded(a: Area, s: State, mid: seq<seq<Byte>>, rest: seq<Region>, n: nat)
    requires XATTR_POS !in s.nodes && Alloced(a, s.blocks, s.free, mid, rest, n) && |s.blocks| == |mid|
    requires forall p :: p in s.nodes ==> s.nodes[p] < |mid| && mid[s.nodes[p]] == s.blocks[s.nodes[p]]
    ensures |s.nodes[XATTR_POS := n]| == |s.nodes| + 1
    ensures XattrOnly(s, State(mid, rest, s.used + 1, s.inode.(blocks := s.inode.blocks + 1, xattrPtr := Ptr(a, n)),
                               s.nodes[XATTR_POS := n]))
  {
    hide Ptr, Units, Owned, UnitsSized;
    var c := XATTR_POS;
    OwnedAdd(s.nodes, c, n);
    assert Units(rest) + Owned(s.nodes[c := n]) == Units(s.free) + Owned(s.nodes);
  }

  lemma CleanAdd(a: Area, blocks: seq<seq<Byte>>, f: FileMap, n: nat)
    requires Coherent(a, blocks, f)
    ensures Clean(blocks, f) ==> Clean(blocks, f.(xattrPtr := Ptr(a, n), nodes := f.nodes[XATTR_POS := n]))
  {
    hide Links, Words, Shape, Ptr, Roots, Linked;
  }

  /** The file without its xattr block, which has just been given back. */
  lemma XattrRemove(a: Area, s: State, f: FileMap, t: State)
    requires FileOk(a, s.blocks, s.free, f) && s.nodes == f.nodes && XATTR_POS in f.nodes
    requires UnitsSized(a, t.blocks) && Units(t.free) == Units(s.free) + {f.nodes[XATTR_POS]}
    requires forall m :: 0 <= m < a.count && m != f.nodes[XATTR_POS] ==> t.blocks[m] == s.blocks[m]
    requires t.nodes == f.nodes - {XATTR_POS} && t.inode == s.inode.(xattrPtr := 0)
    ensures var g := f.(xattrPtr := 0, nodes := t.nodes);
      FileOk(a, t.blocks, t.free, g) && (Clean(s.blocks, f) ==> Clean(t.blocks, g))
    ensures XattrOnly(s, t) && |t.nodes| == |f.nodes| - 1
  {
    hide Coherent, XattrOnly, Units, Owned, Clean;
    XattrGone(a, s.blocks, f, t.blocks);
    CoherentShape(a, s.blocks, f);
    XattrRemoved(a, s, t);
  }

  lemma CoherentShape(a: Area, blocks: seq<seq<Byte>>, f: FileMap)
    requires Coherent(a, blocks, f)
    ensures Shape(a, f.nodes) && |blocks| == a.count
  {
  }

  lemma XattrGone(a: Area, blocks: seq<seq<Byte>>, f: FileMap, after: seq<seq<Byte>>)
    requires Coherent(a, blocks, f) && XATTR_POS in f.nodes && UnitsSized(a, after)
    requires forall m :: 0 <= m < a.count && m != f.nodes[XATTR_POS] ==> after[m] == blocks[m]
    ensures var g := f.(xattrPtr := 0, nodes := f.nodes - {XATTR_POS});
      Coherent(a, after, g) && (Clean(blocks, f) ==> Clean(after, g))
  {
    hide Words, Ptr, ValidPos, Linked, Roots, Links, Holds;
    var g := f.(xattrPtr := 0, nodes := f.nodes - {XATTR_POS});
    RootsRemove(a, f);
    forall p | p in g.nodes
      ensures DiskWords(after, g.nodes, p) == DiskWords(blocks, f.nodes, p)
    {
    }
    XattrLinks(a, blocks, f, after);
  }

  lemma XattrLinks(a: Area, blocks: seq<seq<Byte>>, f: FileMap, after: seq<seq<Byte>>)
    requires Shape(a, f.nodes) && Links(a, blocks, f)
    requires var nodes := f.nodes - {XATTR_POS};
      forall p :: p in nodes ==> DiskWords(after, nodes, p) == DiskWords(blocks, f.nodes, p)
    ensures Links(a, after, f.(xattrPtr := 0, nodes := f.nodes - {XATTR_POS}))
  {
    hide Linked, DiskWords;
    var g := f.(xattrPtr := 0, nodes := f.nodes - {XATTR_POS});
    forall p | p in g.nodes && p.height > 0
      ensures Linked(a, g.nodes, p, WordsAt(after, g, p))
    {
      LinkedRemove(a, f.nodes, p, WordsAt(blocks, f, p));
    }
  }

  lemma XattrRemoved(a: Area, s: State, t: State)
    requires Shape(a, s.nodes) && XATTR_POS in s.nodes && |s.blocks| == |t.blocks| == a.count
    requires Units(t.free) == Units(s.free) + {s.nodes[XATTR_POS]}
    requires forall m :: 0 <= m < a.count && m != s.nodes[XATTR_POS] ==> t.blocks[m] == s.blocks[m]
    requires t.nodes == s.nodes - {XATTR_POS} && t.inode == s.inode.(xattrPtr := 0)
    ensures XattrOnly(s, t) && |t.nodes| == |s.nodes| - 1
  {
    hide Units, Owned, ValidPos;
    assert t.nodes.Keys == s.nodes.Keys - {XATTR_POS};
    OwnedRemove(s.nodes, XATTR_POS);
    assert Units(t.free) + Owned(t.nodes) == Units(s.free) + Owned(s.nodes);
  }

  lemma OwnedRemove(nodes: map<Pos, nat>, c: Pos)
    requires c in nodes && forall p, q :: p in nodes && q in nodes && nodes[p] == nodes[q] ==> p == q
    ensures Owned(nodes - {c}) == Owned(nodes) - {nodes[c]} && nodes[c] in Owned(nodes)
  {
    forall n | n in Owned(nodes) - {nodes[c]}
      ensures n in Owned(nodes - {c})
    {
      var p :| p in nodes && nodes[p] == n;
      assert (nodes - {c})[p] == n;
    }
  }

  lemma RootsRemove(a: Area, f: FileMap)
    requires Roots(a, f)
    ensures Roots(a, f.(xattrPtr := 0, nodes := f.nodes - {XATTR_POS}))
  {
    var g := f.(xattrPtr := 0, nodes := f.nodes - {XATTR_POS});
    forall p | Top(p)
      ensures RootWord(g, p) == Entry(a, g.nodes, p)
    {
      assert RootWord(f, p) == Entry(a, f.nodes, p);
    }
  }

  lemma LinkedRemove(a: Area, nodes: map<Pos, nat>, p: Pos, words: seq<nat>)
    requires Linked(a, nodes, p, words) && p in nodes && Shape(a, nodes)
    ensures Linked(a, nodes - {XATTR_POS}, p, words)
  {
  }
}
