/**
 How many blocks a write needs: the nodes on the paths to the blocks of its range that are not there yet. A write
 adds nodes on these paths only, so it succeeds exactly when that many blocks are free.
 */
module Need {
  import opened Arith
  import opened Codec
  import opened Regions
  import opened Areas
  import opened Positions
  import opened BlockMap
  import opened Frames
  import opened Contents
  import opened Results

  /** The node at height `h` on the path to block `bi`. */
  function NodeAt(pc: nat, bi: nat, h: nat): Pos
    requires pc > 0 && bi < MaxBlocks(pc)
  {
    var t := TreeOf(pc, bi);
    Pos(t, h, (bi - Start(pc, t)) / Span(pc, h))
  }

  /** The path to block `bi`: the block itself and the pointer blocks above it. */
  function PathNodes(pc: nat, bi: nat): set<Pos>
    requires pc > 0 && bi < MaxBlocks(pc)
  {
    set h | 0 <= h <= TreeOf(pc, bi) :: NodeAt(pc, bi, h)
  }

  /** The paths to the blocks from `lo` up to `hi`. */
  function RangeNodes(pc: nat, lo: nat, hi: nat): set<Pos>
    requires pc > 0 && hi <= MaxBlocks(pc)
  {
    if hi <= lo then {} else RangeNodes(pc, lo, hi - 1) + PathNodes(pc, hi - 1)
  }

  /** The nodes that a file with bytes at `off` up to `off + len` has. */
  function Needed(a: Area, off: nat, len: nat): set<Pos>
    requires Pc(a) > 0 && SizeOk(a, off + len)
  {
    if len == 0 then {}
    else
      InsideLimit(a, off + len, off + len - 1);
      RangeNodes(Pc(a), BlockOfPos(off, a.unit).0, BlockOfPos(off + len - 1, a.unit).0 + 1)
  }

  /** The number of blocks still to be allocated for them. */
  function Missing(a: Area, nodes: map<Pos, nat>, off: nat, len: nat): nat
    requires Pc(a) > 0 && SizeOk(a, off + len)
  {
    |Needed(a, off, len) - nodes.Keys|
  }

  /** Only nodes of `allowed` are new. */
  predicate Grown(before: map<Pos, nat>, after: map<Pos, nat>, allowed: set<Pos>) {
    after.Keys <= before.Keys + allowed
  }

  lemma GrownSame(nodes: map<Pos, nat>, allowed: set<Pos>)
    ensures Grown(nodes, nodes, allowed)
  {
  }

  lemma GrownBy(nodes: map<Pos, nat>, c: Pos, n: nat)
    ensures Grown(nodes, nodes[c := n], {c})
  {
  }

  lemma GrownOn(before: map<Pos, nat>, mid: map<Pos, nat>, after: map<Pos, nat>, allowed: set<Pos>, more: set<Pos>)
    requires Grown(before, mid, allowed) && Grown(mid, after, more) && more <= allowed
    ensures Grown(before, after, allowed)
  {
  }

  lemma LeafOnPath(pc: nat, bi: nat)
    requires pc > 0 && bi < MaxBlocks(pc)
    ensures Leaf(pc, bi) == NodeAt(pc, bi, 0) && Leaf(pc, bi) in PathNodes(pc, bi)
  {
  }

  /** The descent meets nodes of the path only. */
  lemma DescentOnPath(pc: nat, bi: nat, p: Pos, off: nat)
    requires pc > 0 && OnPath(pc, bi, p, off)
    ensures p == NodeAt(pc, bi, p.height) && p in PathNodes(pc, bi)
  {
    hide MaxBlocks, Span;
    var m := Span(pc, p.height);
    TimesIsMul(p.index, m);
    DivUnique(p.index, off, m);
  }

  lemma PathIn(pc: nat, lo: nat, hi: nat, bi: nat)
    requires pc > 0 && hi <= MaxBlocks(pc) && lo <= bi < hi
    ensures PathNodes(pc, bi) <= RangeNodes(pc, lo, hi)
  {
    hide MaxBlocks, PathNodes;
    if bi < hi - 1 {
      PathIn(pc, lo, hi - 1, bi);
    }
  }

  /** The path to the block of a byte in the range is needed. */
  lemma ByteNeeds(a: Area, off: nat, len: nat, x: nat)
    requires Pc(a) > 0 && SizeOk(a, off + len) && off <= x < off + len
    ensures BlockOfPos(x, a.unit).0 < MaxBlocks(Pc(a))
    ensures PathNodes(Pc(a), BlockOfPos(x, a.unit).0) <= Needed(a, off, len)
  {
    hide MaxBlocks, PathNodes, BlockOfPos, Pc, Times;
    InsideLimit(a, off + len, x);
    InsideLimit(a, off + len, off + len - 1);
    BlockOrder(off, x, a.unit);
    BlockOrder(x, off + len - 1, a.unit);
    PathIn(Pc(a), BlockOfPos(off, a.unit).0, BlockOfPos(off + len - 1, a.unit).0 + 1, BlockOfPos(x, a.unit).0);
  }

  lemma BlockOrder(x: nat, y: nat, bs: nat)
    requires bs > 0 && x <= y
    ensures BlockOfPos(x, bs).0 <= BlockOfPos(y, bs).0
  {
    hide BlockOfPos;
    if BlockOfPos(y, bs).0 < BlockOfPos(x, bs).0 {
      TimesApart(BlockOfPos(y, bs).0, BlockOfPos(x, bs).0, bs);
    }
  }

  /** A longer range needs more. */
  lemma NeedGrows(a: Area, off: nat, len: nat, more: nat)
    requires Pc(a) > 0 && SizeOk(a, off + more) && len <= more
    ensures SizeOk(a, off + len) && Needed(a, off, len) <= Needed(a, off, more)
  {
    hide MaxBlocks, PathNodes, BlockOfPos, Pc, Times;
    if len > 0 {
      InsideLimit(a, off + more, off + more - 1);
      InsideLimit(a, off + len, off + len - 1);
      BlockOrder(off + len - 1, off + more - 1, a.unit);
      PathsGrow(Pc(a), BlockOfPos(off, a.unit).0, BlockOfPos(off + len - 1, a.unit).0 + 1,
        BlockOfPos(off + more - 1, a.unit).0 + 1);
    }
  }

  /** The end of a range needs less than the range from 0. */
  lemma NeedTail(a: Area, off: nat, len: nat)
    requires Pc(a) > 0 && SizeOk(a, off + len)
    ensures Needed(a, off, len) <= Needed(a, 0, off + len)
  {
    hide MaxBlocks, PathNodes, BlockOfPos, Pc, Times;
    if len > 0 {
      InsideLimit(a, off + len, off + len - 1);
      BlockOrder(0, off, a.unit);
      RangeTail(Pc(a), BlockOfPos(0, a.unit).0, BlockOfPos(off, a.unit).0, BlockOfPos(off + len - 1, a.unit).0 + 1);
    }
  }

  lemma RangeTail(pc: nat, lo: nat, mid: nat, hi: nat)
    requires pc > 0 && lo <= mid && hi <= MaxBlocks(pc)
    ensures RangeNodes(pc, mid, hi) <= RangeNodes(pc, lo, hi)
  {
    hide MaxBlocks, PathNodes;
    if mid < hi {
      RangeTail(pc, lo, mid, hi - 1);
    }
  }

  lemma PathsGrow(pc: nat, lo: nat, hi: nat, top: nat)
    requires pc > 0 && hi <= top <= MaxBlocks(pc)
    ensures RangeNodes(pc, lo, hi) <= RangeNodes(pc, lo, top)
  {
    hide MaxBlocks, PathNodes;
    if hi < top {
      PathsGrow(pc, lo, hi, top - 1);
    }
  }

  // ----- What is there -----

  /** A mapped block has its whole path mapped. */
  lemma {:induction false} PathThere(a: Area, nodes: map<Pos, nat>, bi: nat, h: nat)
    requires DataOk(a) && Shape(a, nodes) && bi < MaxBlocks(Pc(a)) && Leaf(Pc(a), bi) in nodes && h <= TreeOf(Pc(a), bi)
    ensures NodeAt(Pc(a), bi, h) in nodes
  {
    hide MaxBlocks, Start, TreeOf, Shape;
    if h == 0 {
      LeafOnPath(Pc(a), bi);
    } else {
      PathThere(a, nodes, bi, h - 1);
      ParentAt(Pc(a), bi, h);
      TreeKind(Pc(a), bi);
      ShapeParent(a, nodes, NodeAt(Pc(a), bi, h - 1));
    }
  }

  lemma ShapeParent(a: Area, nodes: map<Pos, nat>, p: Pos)
    requires Shape(a, nodes) && p in nodes && IsTree(p.tree) && p.height < p.tree
    ensures Pc(a) > 0 && Parent(Pc(a), p) in nodes
  {
  }

  lemma TreeKind(pc: nat, bi: nat)
    requires bi < MaxBlocks(pc)
    ensures TreeOf(pc, bi) <= 4
  {
  }

  lemma ParentAt(pc: nat, bi: nat, h: nat)
    requires pc > 0 && bi < MaxBlocks(pc) && h > 0
    ensures Parent(pc, NodeAt(pc, bi, h - 1)) == NodeAt(pc, bi, h)
  {
    hide MaxBlocks, TreeOf, Start;
    var x := bi - Start(pc, TreeOf(pc, bi));
    var m := Span(pc, h - 1);
    assert Span(pc, h) == Times(pc, m);
    TimesIsMul(pc, m);
    DivTwice(x, m, pc);
  }

  /** Dividing twice is dividing by the product. */
  lemma DivTwice(x: nat, m: nat, n: nat)
    requires m > 0 && n > 0
    ensures Times(n, m) > 0 && x / m / n == x / Times(n, m)
  {
    hide Times;
    TimesPositive(n, m);
    var p, s, r, q := Split(x, m, n);
    TimesAssoc(p, n, m);
    TimesSum(Times(p, n), s, m);
    TimesApart(s, n, m);
    TimesIsMul(p, Times(n, m));
    DivUnique(p, Times(s, m) + r, Times(n, m));
  }

  /** Quotients and remainders of both divisions. */
  lemma Split(x: nat, m: nat, n: nat) returns (p: nat, s: nat, r: nat, q: nat)
    requires m > 0 && n > 0
    ensures q == x / m && p == q / n && s < n && r < m
    ensures x == Times(q, m) + r && q == Times(p, n) + s
  {
    q, r := x / m, x % m;
    p, s := q / n, q % n;
    DivMod(x, m);
    DivMod(q, n);
    TimesIsMul(q, m);
    TimesIsMul(p, n);
  }

  // ----- Writes and need -----

  /** What a range needs is there once all its bytes are mapped. */
  lemma {:induction false} PathsThere(a: Area, nodes: map<Pos, nat>, lo: nat, hi: nat)
    requires DataOk(a) && Shape(a, nodes) && hi <= MaxBlocks(Pc(a))
    requires forall bi: nat :: lo <= bi < hi ==> Leaf(Pc(a), bi) in nodes
    ensures RangeNodes(Pc(a), lo, hi) <= nodes.Keys
  {
    hide MaxBlocks, Leaf, Shape, TreeOf, NodeAt;
    if lo < hi {
      PathsThere(a, nodes, lo, hi - 1);
      forall p | p in PathNodes(Pc(a), hi - 1)
        ensures p in nodes
      {
        var h :| 0 <= h <= TreeOf(Pc(a), hi - 1) && p == NodeAt(Pc(a), hi - 1, h);
        PathThere(a, nodes, hi - 1, h);
      }
    }
  }

  /** After a complete write everything needed is there. */
  lemma NeedMet(a: Area, blocks: seq<seq<Byte>>, nodes: map<Pos, nat>, off: nat, len: nat)
    requires DataOk(a) && Shape(a, nodes) && SizeOk(a, off + len)
    requires forall x: nat :: off <= x < off + len ==> ByteAt(a, blocks, nodes, x).Some?
    ensures Needed(a, off, len) <= nodes.Keys
  {
    hide MaxBlocks, Leaf, Shape, RangeNodes;
    if len > 0 {
      InsideLimit(a, off + len, off + len - 1);
      var lo, hi := BlockOfPos(off, a.unit).0, BlockOfPos(off + len - 1, a.unit).0 + 1;
      forall bi: nat | lo <= bi < hi
        ensures Leaf(Pc(a), bi) in nodes
      {
        var x := ByteIn(a, off, len, bi);
        assert ByteAt(a, blocks, nodes, x).Some?;
      }
      PathsThere(a, nodes, lo, hi);
    }
  }

  /** Each block of the range holds one of its bytes. */
  lemma ByteIn(a: Area, off: nat, len: nat, bi: nat) returns (x: nat)
    requires a.unit > 0 && len > 0
    requires BlockOfPos(off, a.unit).0 <= bi <= BlockOfPos(off + len - 1, a.unit).0
    ensures off <= x < off + len && BlockOfPos(x, a.unit).0 == bi
  {
    hide BlockOfPos, Times;
    if bi == BlockOfPos(off, a.unit).0 {
      x := off;
    } else {
      x := Times(bi, a.unit);
      TimesApart(BlockOfPos(off, a.unit).0, bi, a.unit);
      BlockUnique(x, a.unit, bi, 0);
      if bi < BlockOfPos(off + len - 1, a.unit).0 {
        TimesApart(bi, BlockOfPos(off + len - 1, a.unit).0, a.unit);
      }
    }
  }

  /** A complete write had enough free blocks. */
  lemma EnoughFree(a: Area, s: State, t: State, off: nat, data: seq<Byte>)
    requires DataOk(a) && Shape(a, t.nodes) && SizeOk(a, off + |data|) && Wrote(a, s, t, off, data) && t.used <= a.count
    ensures Missing(a, s.nodes, off, |data|) <= a.count - s.used
  {
    hide MaxBlocks, Shape, Needed, ByteAt, SizeOk;
    forall x: nat | off <= x < off + |data|
      ensures ByteAt(a, t.blocks, t.nodes, x).Some?
    {
      assert ByteAt(a, t.blocks, t.nodes, off + (x - off)) == Some(data[x - off]);
    }
    NeedMet(a, t.blocks, t.nodes, off, |data|);
    assert |s.nodes| == |s.nodes.Keys| && |t.nodes| == |t.nodes.Keys|;
    NeedCount(s.nodes.Keys, t.nodes.Keys, Needed(a, off, |data|));
  }

  lemma NeedCount(before: set<Pos>, after: set<Pos>, need: set<Pos>)
    requires before <= after && need <= after
    ensures |need - before| <= |after| - |before|
  {
    SubsetSize(need - before, after - before);
    Difference(before, after);
  }

  /** On a full device with something of the range still missing there were too few free blocks. */
  lemma TooFewFree(a: Area, s: State, t: State, off: nat, len: nat, p: Pos)
    requires Pc(a) > 0 && SizeOk(a, off + len) && Counted(s, t) && t.used == a.count
    requires s.nodes.Keys <= t.nodes.Keys && Grown(s.nodes, t.nodes, Needed(a, off, len))
    requires p in Needed(a, off, len) && p !in t.nodes
    ensures Missing(a, s.nodes, off, len) > a.count - s.used
  {
    hide MaxBlocks, Needed, SizeOk;
    assert |s.nodes| == |s.nodes.Keys| && |t.nodes| == |t.nodes.Keys|;
    StrictCount(s.nodes.Keys, t.nodes.Keys, Needed(a, off, len), p);
  }

  lemma StrictCount(before: set<Pos>, after: set<Pos>, need: set<Pos>, p: Pos)
    requires before <= after <= before + need && p in need && p !in after
    ensures |need - before| > |after| - |before|
  {
    var added, lacking := after - before, need - before;
    assert p in lacking && added <= lacking - {p};
    SubsetSize(added, lacking - {p});
    assert |lacking - {p}| == |lacking| - 1;
    Difference(before, after);
  }

  lemma Difference(before: set<Pos>, after: set<Pos>)
    requires before <= after
    ensures |after - before| == |after| - |before|
  {
    assert after == before + (after - before);
  }
}
