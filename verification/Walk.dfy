/**
 The traversal of `clear_pointers_rec` read as a function of an arbitrary disk, whether or not the disk is up to date:
 which pointers it hands to `free_db`. On a clean cache these are the blocks to be freed, each once; on a cache that is
 not clean it misses blocks, or frees what stale bytes happen to say. The walk here is on a disk that stays as it is and
 follows only pointers to blocks. The code also writes a free-list header into each block it frees, which it meets again
 where stale pointers share a block, reads on at pointers between blocks, and stops with an error at one past the end of
 the device; of what it frees on such a disk this is the account up to the first of these.
 */
module Walk {
  import opened Arith
  import opened Codec
  import opened Regions
  import opened Areas
  import opened Positions
  import opened BlockMap
  import opened Release

  /** The pointers freed below the block at `ptr`; a pointer that is no block of the area is not followed. */
  function Frees(a: Area, disk: seq<seq<Byte>>, ptr: nat, level: nat, start: nat, from: nat): seq<nat>
    decreases level, 0
  {
    var n := BlockOf(a, ptr);
    if ptr == 0 || level == 0 || n.None? || n.value >= |disk| then []
    else
      var words := Words(disk[n.value]);
      FreesTo(a, disk, words, |words|, level, start, from)
  }

  /** Those of the first `i` words of a pointer block. */
  function FreesTo(a: Area, disk: seq<seq<Byte>>, words: seq<nat>, i: nat, level: nat, start: nat, from: nat): seq<nat>
    requires i <= |words| && level > 0
    decreases level - 1, i + 1
  {
    if i == 0 then []
    else
      var first := start + Times(i - 1, Span(Pc(a), level - 1));
      FreesTo(a, disk, words, i - 1, level, start, from)
      + Frees(a, disk, words[i - 1], level - 1, first, from)
      + (if words[i - 1] != 0 && from <= first then [words[i - 1]] else [])
  }

  function PtrsOf(a: Area, nodes: map<Pos, nat>, ps: set<Pos>): set<nat> {
    set p | p in ps && p in nodes :: Ptr(a, nodes[p])
  }

  /** The walk frees exactly the blocks of these nodes, each once. */
  ghost predicate FreesExactly(a: Area, nodes: map<Pos, nat>, frees: seq<nat>, ps: set<Pos>) {
    (forall x :: x in frees <==> x in PtrsOf(a, nodes, ps)) && |frees| == |ps|
  }

  /** On a clean cache the walk below any node frees exactly the doomed nodes below it. */
  lemma {:induction false} CleanFrees(a: Area, disk: seq<seq<Byte>>, f: FileMap, p: Pos, from: nat)
    requires Coherent(a, disk, f) && Clean(disk, f) && IsTree(p.tree) && p.height <= p.tree
    ensures FreesExactly(a, f.nodes, Frees(a, disk, Entry(a, f.nodes, p), p.height, First(Pc(a), p), from),
                         DoomedUnder(Pc(a), f.nodes, p, from, First(Pc(a), p) + Span(Pc(a), p.height)))
    decreases p.height, 0
  {
    hide Words, Linked, Roots, Shape, CacheOk, Links, Clean, BlockOf, Ptr, First, Span, FreesTo, DoomedUnder,
      FreesExactly;
    EntryZero(a, f.nodes, p);
    if p !in f.nodes {
      DoomedAbsent(a, f.nodes, p, from);
      FreesNone(a, f.nodes);
    } else if p.height == 0 {
      LeafUnder(Pc(a), f.nodes, p, from);
      FreesNone(a, f.nodes);
    } else {
      CleanLinked(a, disk, f, p);
      var words := Words(disk[f.nodes[p]]);
      WordsCount(a, f.nodes, p, words);
      CleanFreesTo(a, disk, f, p, words, Pc(a), from);
      DoomedAll(Pc(a), p);
    }
  }

  lemma {:induction false} CleanFreesTo(a: Area, disk: seq<seq<Byte>>, f: FileMap, p: Pos, words: seq<nat>, i: nat,
                                        from: nat)
    requires Coherent(a, disk, f) && Clean(disk, f) && IsTree(p.tree) && 0 < p.height <= p.tree
    requires |words| == Pc(a) && Linked(a, f.nodes, p, words) && i <= Pc(a)
    ensures FreesExactly(a, f.nodes, FreesTo(a, disk, words, i, p.height, First(Pc(a), p), from),
                         DoomedUnder(Pc(a), f.nodes, p, from, First(Pc(a), Child(Pc(a), p, i))))
    decreases p.height - 1, i + 1
  {
    hide Words, Linked, Roots, Shape, CacheOk, Links, Clean, BlockOf, Ptr, First, Span, DoomedUnder, FreesExactly,
      Frees, Times;
    var pc := Pc(a);
    if i == 0 {
      DoomedAll(pc, p);
      DoomedStart(pc, f.nodes, p, from);
      FreesNone(a, f.nodes);
    } else {
      var c := Child(pc, p, i - 1);
      CleanFreesTo(a, disk, f, p, words, i - 1, from);
      LinkedAt(a, f.nodes, p, words, i - 1);
      FirstOfChild(pc, p, i - 1);
      CleanFrees(a, disk, f, c, from);
      DoomedStep(a, f.nodes, p, i - 1, from);
      EntryZero(a, f.nodes, c);
      FreesJoin(a, f.nodes, p, c, from,
                FreesTo(a, disk, words, i - 1, p.height, First(pc, p), from),
                Frees(a, disk, words[i - 1], p.height - 1, First(pc, c), from));
    }
  }

  lemma FreesNone(a: Area, nodes: map<Pos, nat>)
    ensures FreesExactly(a, nodes, [], {})
  {
  }

  lemma LeafUnder(pc: nat, nodes: map<Pos, nat>, p: Pos, from: nat)
    requires p.height == 0
    ensures DoomedUnder(pc, nodes, p, from, First(pc, p) + Span(pc, p.height)) == {}
  {
  }

  lemma DoomedStart(pc: nat, nodes: map<Pos, nat>, p: Pos, from: nat)
    ensures DoomedUnder(pc, nodes, p, from, First(pc, p)) == {}
  {
  }

  lemma WordsCount(a: Area, nodes: map<Pos, nat>, p: Pos, words: seq<nat>)
    requires Linked(a, nodes, p, words)
    ensures |words| == Pc(a)
  {
  }

  /** Frees before, below and at child `c` together are those up to the next child. */
  lemma FreesJoin(a: Area, nodes: map<Pos, nat>, p: Pos, c: Pos, from: nat, xs: seq<nat>, ys: seq<nat>)
    requires p.height > 0 && c.tree == p.tree && c.height == p.height - 1
    requires FreesExactly(a, nodes, xs, DoomedUnder(Pc(a), nodes, p, from, First(Pc(a), c)))
    requires FreesExactly(a, nodes, ys, DoomedUnder(Pc(a), nodes, c, from, First(Pc(a), c) + Span(Pc(a), c.height)))
    ensures var own := c in nodes && from <= First(Pc(a), c);
      FreesExactly(a, nodes, xs + ys + (if own then [Ptr(a, nodes[c])] else []),
                   DoomedUnder(Pc(a), nodes, p, from, First(Pc(a), c))
                   + DoomedUnder(Pc(a), nodes, c, from, First(Pc(a), c) + Span(Pc(a), c.height))
                     + (if own then {c} else {}))
  {
    hide DoomedUnder, PtrsOf, Ptr, First, Span;
    var s, t := DoomedUnder(Pc(a), nodes, p, from, First(Pc(a), c)),
                DoomedUnder(Pc(a), nodes, c, from, First(Pc(a), c) + Span(Pc(a), c.height));
    hide FreesExactly;
    Apart(Pc(a), nodes, p, c, from);
    FreesBoth(a, nodes, xs, ys, s, t);
    if c in nodes && from <= First(Pc(a), c) {
      FreesOne(a, nodes, c);
      FreesBoth(a, nodes, xs + ys, [Ptr(a, nodes[c])], s + t, {c});
    } else {
      assert xs + ys + [] == xs + ys && s + t + {} == s + t;
    }
  }

  lemma FreesOne(a: Area, nodes: map<Pos, nat>, c: Pos)
    requires c in nodes
    ensures FreesExactly(a, nodes, [Ptr(a, nodes[c])], {c})
  {
    hide Ptr;
  }

  lemma FreesBoth(a: Area, nodes: map<Pos, nat>, xs: seq<nat>, ys: seq<nat>, s: set<Pos>, t: set<Pos>)
    requires FreesExactly(a, nodes, xs, s) && FreesExactly(a, nodes, ys, t) && s !! t
    ensures FreesExactly(a, nodes, xs + ys, s + t)
  {
    hide PtrsOf;
    PtrsJoin(a, nodes, s, t);
  }

  lemma Apart(pc: nat, nodes: map<Pos, nat>, p: Pos, c: Pos, from: nat)
    requires p.height > 0 && c.height == p.height - 1
    ensures DoomedUnder(pc, nodes, p, from, First(pc, c)) !! DoomedUnder(pc, nodes, c, from, First(pc, c)
      + Span(pc, c.height))
    ensures c !in DoomedUnder(pc, nodes, p, from, First(pc, c))
    ensures c !in DoomedUnder(pc, nodes, c, from, First(pc, c) + Span(pc, c.height))
  {
    hide First, Span;
  }

  lemma PtrsJoin(a: Area, nodes: map<Pos, nat>, s: set<Pos>, t: set<Pos>)
    requires s !! t
    ensures PtrsOf(a, nodes, s + t) == PtrsOf(a, nodes, s) + PtrsOf(a, nodes, t) && |s + t| == |s| + |t|
  {
  }

  // ----- A cache that is not clean -----

  /** The words that are not zero, in order. */
  function Nonzero(words: seq<nat>): seq<nat> {
    if words == [] then []
    else
      Nonzero(words[..|words| - 1])
      + (if words[|words| - 1] != 0 then [words[|words| - 1]] else [])
  }

  lemma NonzeroHas(words: seq<nat>, x: nat)
    ensures x in Nonzero(words) <==> x in words && x != 0
  {
    if words != [] {
      assert words == words[..|words| - 1] + [words[|words| - 1]];
    }
  }

  /** A walk of a block that is the last pointer block on its path frees whatever words the disk has there. */
  lemma LastBlockFrees(a: Area, disk: seq<seq<Byte>>, n: nat, start: nat)
    requires a.unit > 0 && a.base > 0 && n < a.count == |disk|
    ensures Frees(a, disk, Ptr(a, n), 1, start, 0) == Nonzero(Words(disk[n]))
  {
    hide Words;
    BlockOfPtr(a, n);
    var words := Words(disk[n]);
    LastWordsFree(a, disk, words, |words|, start);
    assert words[..|words|] == words;
  }

  lemma {:induction false} LastWordsFree(a: Area, disk: seq<seq<Byte>>, words: seq<nat>, i: nat, start: nat)
    requires i <= |words|
    ensures FreesTo(a, disk, words, i, 1, start, 0) == Nonzero(words[..i])
  {
    if i > 0 {
      LastWordsFree(a, disk, words, i - 1, start);
      assert words[..i][..i - 1] == words[..i - 1];
    }
  }

  /**
   A block just hung below a cached pointer block is missed: until the slot is written back the walk of that pointer
   block does not free it, so destroying the unlinked file, which is never flushed, leaks it. Below a last-level block
   it is enough that the block's own slot was clean before.
   */
  lemma HungLeaks(a: Area, disk: seq<seq<Byte>>, f: FileMap, p: Pos, i: nat, n: nat)
    requires Coherent(a, disk, f) && Fresh(a, f.nodes, n) && 1 <= p.height <= 4 && Holds(f, p.height - 1, p)
    requires Clean(disk, f) || (p.height == 1 && SlotClean(disk, f, 0))
    requires i < Pc(a) && |f.cache[p.height - 1].words| == Pc(a) && f.cache[p.height - 1].words[i] == 0
    ensures var g, c := Hung(a, f, p, i, n), Child(Pc(a), p, i);
      && c in g.nodes && g.nodes[c] == n && p in g.nodes && !Clean(disk, g)
      && Ptr(a, n) !in Frees(a, disk, Ptr(a, g.nodes[p]), p.height, First(Pc(a), p), 0)
  {
    hide Words, Roots, Shape, Links, First, Frees, Linked, Ptr;
    HungUnseen(a, disk, f, p, i, n);
    if Clean(disk, f) {
      CleanMisses(a, disk, f, p, n);
    } else {
      LastMisses(a, disk, f, p, n);
    }
  }

  lemma CleanMisses(a: Area, disk: seq<seq<Byte>>, f: FileMap, p: Pos, n: nat)
    requires Coherent(a, disk, f) && Clean(disk, f) && Fresh(a, f.nodes, n) && 1 <= p.height <= 4
    requires Holds(f, p.height - 1, p)
    ensures p in f.nodes && Ptr(a, n) !in Frees(a, disk, Ptr(a, f.nodes[p]), p.height, First(Pc(a), p), 0)
  {
    hide Words, Roots, Links, First, Frees, Linked, Ptr, DoomedUnder, Span, Clean;
    HeldNode(a, f, p);
    CleanFrees(a, disk, f, p, 0);
    ShapeBound(a, f);
    forall q | q in f.nodes
      ensures Ptr(a, f.nodes[q]) != Ptr(a, n)
    {
      PtrsDiffer(a, f, q, n);
    }
  }

  lemma HeldNode(a: Area, f: FileMap, p: Pos)
    requires CacheOk(a, f) && Shape(a, f.nodes) && 1 <= p.height <= 4 && Holds(f, p.height - 1, p)
    ensures p in f.nodes && IsTree(p.tree) && p.height <= p.tree
  {
    assert SlotOk(a, f, p.height - 1);
    TreeNode(a, f.nodes, p);
  }

  lemma LastMisses(a: Area, disk: seq<seq<Byte>>, f: FileMap, p: Pos, n: nat)
    requires Coherent(a, disk, f) && Fresh(a, f.nodes, n) && p.height == 1 && Holds(f, 0, p) && SlotClean(disk, f, 0)
    ensures p in f.nodes && Ptr(a, n) !in Frees(a, disk, Ptr(a, f.nodes[p]), 1, First(Pc(a), p), 0)
  {
    hide Words, Roots, Shape, Links, First, Frees, Linked, Ptr;
    SlotFacts(a, disk, f, 0);
    SizedCount(a, disk, f);
    var words := f.cache[0].words;
    ShapeBound(a, f);
    LastBlockFrees(a, disk, f.nodes[p], First(Pc(a), p));
    NonzeroHas(words, Ptr(a, n));
    forall j | 0 <= j < Pc(a)
      ensures words[j] != Ptr(a, n)
    {
      LinkedAt(a, f.nodes, p, words, j);
      PtrsDiffer(a, f, Child(Pc(a), p, j), n);
    }
  }

  lemma SizedCount(a: Area, disk: seq<seq<Byte>>, f: FileMap)
    requires Coherent(a, disk, f)
    ensures |disk| == a.count && a.unit > 0 && a.base > 0
  {
    hide Links, Roots, CacheOk, Shape;
  }

  lemma ShapeBound(a: Area, f: FileMap)
    requires Shape(a, f.nodes)
    ensures forall p :: p in f.nodes ==> f.nodes[p] < a.count
  {
  }

  lemma PtrsDiffer(a: Area, f: FileMap, q: Pos, n: nat)
    requires DataOk(a) && Fresh(a, f.nodes, n) && (forall p :: p in f.nodes ==> f.nodes[p] < a.count)
    ensures Entry(a, f.nodes, q) != Ptr(a, n)
  {
    if q in f.nodes {
      BlockOfPtr(a, f.nodes[q]);
      BlockOfPtr(a, n);
    }
  }

  /**
   A root block just taken from the head of the free list still holds its free-list header on disk: the walk frees the
   header's words, the next free region and the size of the old one, as if they were pointers, though the file has no
   block below that root.
   */
  lemma StaleRootFrees(a: Area, disk: seq<seq<Byte>>, free: seq<Region>, after: seq<seq<Byte>>, f: FileMap)
    requires Coherent(a, disk, f) && Root(1) !in f.nodes && SlotClean(disk, f, 0)
    requires RegionsOk(free, a.count) && free != [] && Chained(a, disk, free) && Fresh(a, f.nodes, free[0].first)
    requires Alloced(a, disk, free, after, Carve(free, 1), free[0].first)
    ensures var g, frees := Planted(a, f, Root(1), free[0].first), Frees(a, after, Ptr(a, free[0].first), 1, DIRECT, 0);
      && g.nodes == f.nodes[Root(1) := free[0].first] && (forall q :: q in g.nodes && q.tree == 1 ==> q == Root(1))
      && Times(free[0].count, a.unit) in frees
      && (|free| > 1 ==> Ptr(a, free[1].first) in frees)
  {
    hide Frees, Roots, Links, Chained, Words;
    var n := free[0].first;
    SizedCount(a, disk, f);
    LastBlockFrees(a, after, n, DIRECT);
    OldHeader(a, disk, free, after);
    NonzeroHas(Words(after[n]), Times(free[0].count, a.unit));
    TimesPositive(free[0].count, a.unit);
    if |free| > 1 {
      NonzeroHas(Words(after[n]), Ptr(a, free[1].first));
    }
    forall q | q in f.nodes && q.tree == 1
      ensures false
    {
      AloneRoot(a, f.nodes, q);
    }
  }

  lemma AloneRoot(a: Area, nodes: map<Pos, nat>, q: Pos)
    requires DataOk(a) && Shape(a, nodes) && q in nodes && q.tree == 1
    ensures Root(1) in nodes
  {
  }

  lemma OldHeader(a: Area, disk: seq<seq<Byte>>, free: seq<Region>, after: seq<seq<Byte>>)
    requires DataOk(a) && UnitsSized(a, disk) && RegionsOk(free, a.count) && free != [] && Chained(a, disk, free)
    requires Alloced(a, disk, free, after, Carve(free, 1), free[0].first)
    ensures var n := free[0].first;
      && n < |after| == a.count && |Words(after[n])| >= 2
      && Words(after[n])[0] == HeadPtr(a, free[1..]) && Words(after[n])[1] == Times(free[0].count, a.unit)
  {
    hide Words, FromWords, Ptr, Units;
    var n := free[0].first;
    var header := Header(HeadPtr(a, free[1..]), Times(free[0].count, a.unit));
    RegionFits(a, free);
    HeaderWords(a, End(a), free[1..], free[0]);
    assert disk[n][..FREE_LIST_SIZE] == header;
    FirstWords(after[n]);
  }

  lemma RegionFits(a: Area, free: seq<Region>)
    requires RegionsOk(free, a.count) && free != []
    ensures RegionsOk(free[1..], a.count) && free[0].count <= a.count && free[0].first < a.count
  {
  }

  lemma FirstWords(bytes: seq<Byte>)
    requires |bytes| >= 2 * WORD
    ensures |Words(bytes)| >= 2 && |Words(bytes[..2 * WORD])| == 2
    ensures Words(bytes)[0] == Words(bytes[..2 * WORD])[0] && Words(bytes)[1] == Words(bytes[..2 * WORD])[1]
  {
    hide Decode;
    assert bytes[..2 * WORD][..WORD] == bytes[..WORD];
    assert bytes[..2 * WORD][WORD..2 * WORD] == bytes[WORD..2 * WORD];
  }
}
