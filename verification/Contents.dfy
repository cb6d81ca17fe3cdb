/** The bytes of a file, and what reads and writes mean for them. */
module Contents {
  import opened Arith
  import opened Codec
  import opened Regions
  import opened Areas
  import opened Positions
  import opened BlockMap
  import opened Frames
  import opened Results

  /** `block_of_pos`: block index and offset of a position. */
  function BlockOfPos(pos: nat, bs: nat): (r: (nat, nat))
    requires bs > 0
    ensures Times(r.0, bs) + r.1 == pos && r.1 < bs
  {
    DivMod(pos, bs);
    TimesIsMul(pos / bs, bs);
    (pos / bs, pos % bs)
  }

  lemma BlockUnique(pos: nat, bs: nat, bi: nat, bo: nat)
    requires bs > 0 && bo < bs && Times(bi, bs) + bo == pos
    ensures BlockOfPos(pos, bs) == (bi, bo)
  {
    hide BlockOfPos;
    var b := BlockOfPos(pos, bs);
    if b.0 < bi {
      TimesApart(b.0, bi, bs);
    } else if bi < b.0 {
      TimesApart(bi, b.0, bs);
    }
  }

  /** The block that holds data block `bi`. */
  function DataBlock(a: Area, nodes: map<Pos, nat>, bi: nat): Option<nat> {
    if bi < MaxBlocks(Pc(a)) && Leaf(Pc(a), bi) in nodes then Some(nodes[Leaf(Pc(a), bi)]) else None
  }

  lemma LookupBlock(a: Area, nodes: map<Pos, nat>, bi: nat)
    requires bi < MaxBlocks(Pc(a))
    ensures Lookup(a, nodes, bi).Some? <==> DataBlock(a, nodes, bi).Some?
    ensures DataBlock(a, nodes, bi).Some? ==> Lookup(a, nodes, bi).value == Ptr(a, DataBlock(a, nodes, bi).value)
    ensures DataBlock(a, nodes, bi).Some? ==> DataBlock(a, nodes, bi).value in Owned(nodes)
  {
    hide MaxBlocks, Leaf, Pc, Ptr;
  }

  /** The byte at position `x`, if its block is mapped. */
  function ByteAt(a: Area, blocks: seq<seq<Byte>>, nodes: map<Pos, nat>, x: nat): Option<Byte> {
    if a.unit == 0 then None
    else
      var b := BlockOfPos(x, a.unit);
      var n := DataBlock(a, nodes, b.0);
      if n.Some? && n.value < |blocks| && b.1 < |blocks[n.value]| then Some(blocks[n.value][b.1]) else None
  }

  /** Growing a file at `bi` adds at most that data block and keeps the others with their bytes. */
  lemma ExtendedBlocks(a: Area, s: State, t: State, bi: nat)
    requires bi < MaxBlocks(Pc(a)) && Extended(s, t, Leaf(Pc(a), bi)) && Shape(a, t.nodes) && |s.blocks| == a.count
    ensures |t.blocks| == |s.blocks|
    ensures forall bj: nat :: DataBlock(a, s.nodes, bj).Some? ==>
      var n := DataBlock(a, s.nodes, bj).value;
      DataBlock(a, t.nodes, bj) == Some(n) && n < |s.blocks| && t.blocks[n] == s.blocks[n]
    ensures forall bj: nat :: bj != bi && DataBlock(a, s.nodes, bj) == None ==> DataBlock(a, t.nodes, bj) == None
    ensures forall bj: nat ::
      DataBlock(a, t.nodes, bj).Some? && DataBlock(a, t.nodes, bj) == DataBlock(a, t.nodes, bi) ==> bj == bi
  {
    hide MaxBlocks, Leaf, Counted, ValidPos, Owned, Units;
    forall bj: nat | DataBlock(a, s.nodes, bj).Some?
      ensures var n := DataBlock(a, s.nodes, bj).value;
        DataBlock(a, t.nodes, bj) == Some(n) && n < |s.blocks| && t.blocks[n] == s.blocks[n]
    {
      var p := Leaf(Pc(a), bj);
      assert p in s.nodes && p.height == 0 && t.nodes[p] == s.nodes[p] < a.count;
    }
    forall bj: nat | bj < MaxBlocks(Pc(a)) && Leaf(Pc(a), bj) == Leaf(Pc(a), bi)
      ensures bj == bi
    {
      LeafInjective(Pc(a), bi, bj);
    }
  }

  /** `r` is what a read of `len` bytes at `off` returns: it stops at the end, the file size or the first hole. */
  predicate IsRead(a: Area, blocks: seq<seq<Byte>>, nodes: map<Pos, nat>, size: nat, off: nat, len: nat, r: seq<Byte>) {
    && |r| <= len
    && (r != [] ==> off + |r| <= size)
    && (forall i :: 0 <= i < |r| ==> ByteAt(a, blocks, nodes, off + i) == Some(r[i]))
    && (|r| < len && off + |r| < size ==> ByteAt(a, blocks, nodes, off + |r|) == None)
  }

  predicate HasByte(a: Area, blocks: seq<seq<Byte>>, nodes: map<Pos, nat>, off: nat, r: seq<Byte>, i: nat) {
    i < |r| && ByteAt(a, blocks, nodes, off + i) == Some(r[i])
  }

  /** A read has one possible outcome. */
  lemma ReadUnique(a: Area, blocks: seq<seq<Byte>>, nodes: map<Pos, nat>, size: nat, off: nat, len: nat, r: seq<Byte>,
                   q: seq<Byte>)
    requires IsRead(a, blocks, nodes, size, off, len, r) && IsRead(a, blocks, nodes, size, off, len, q)
    ensures r == q
  {
    hide ByteAt;
    var m: nat, n: nat := |r|, |q|;
    assert m < n ==> HasByte(a, blocks, nodes, off, q, m);
    assert n < m ==> HasByte(a, blocks, nodes, off, r, n);
    forall i | 0 <= i < |r| && i < |q|
      ensures r[i] == q[i]
    {
      assert ByteAt(a, blocks, nodes, off + i) == Some(r[i]) == Some(q[i]);
    }
  }

  /** Appending one successful chunk to what was read so far. */
  lemma ReadOn(a: Area, blocks: seq<seq<Byte>>, nodes: map<Pos, nat>, off: nat, v: seq<Byte>, chunk: seq<Byte>)
    requires forall i :: 0 <= i < |v| ==> ByteAt(a, blocks, nodes, off + i) == Some(v[i])
    requires forall i :: 0 <= i < |chunk| ==> ByteAt(a, blocks, nodes, off + |v| + i) == Some(chunk[i])
    ensures forall i :: 0 <= i < |v + chunk| ==> ByteAt(a, blocks, nodes, off + i) == Some((v + chunk)[i])
  {
    hide ByteAt;
    forall i | 0 <= i < |v + chunk|
      ensures ByteAt(a, blocks, nodes, off + i) == Some((v + chunk)[i])
    {
      if i >= |v| {
        assert ByteAt(a, blocks, nodes, off + |v| + (i - |v|)) == Some(chunk[i - |v|]);
      }
    }
  }

  /** Writing pointer blocks back does not show in the contents. */
  lemma QuietBytes(a: Area, s: State, t: State)
    requires Quiet(s, t)
    ensures forall x: nat :: ByteAt(a, t.blocks, t.nodes, x) == ByteAt(a, s.blocks, s.nodes, x)
  {
    hide MaxBlocks, Leaf, Pc, BlockOfPos;
    forall x: nat
      ensures ByteAt(a, t.blocks, t.nodes, x) == ByteAt(a, s.blocks, s.nodes, x)
    {
      if a.unit > 0 && BlockOfPos(x, a.unit).0 < MaxBlocks(Pc(a)) {
        var p := Leaf(Pc(a), BlockOfPos(x, a.unit).0);
        assert p in s.nodes && p.height == 0 && s.nodes[p] < |s.blocks| ==>
          t.blocks[s.nodes[p]] == s.blocks[s.nodes[p]];
      }
    }
  }

  // ----- Writes -----

  /**
   The effect of writing `data` at `off`; bytes outside keep their values, blocks are only added, and only in range.
   */
  ghost predicate Wrote(a: Area, s: State, t: State, off: nat, data: seq<Byte>) {
    && Stepped(s, t) && Counted(s, t)
    && (forall p :: p in s.nodes ==> p in t.nodes && t.nodes[p] == s.nodes[p])
    && (forall i :: 0 <= i < |data| ==> ByteAt(a, t.blocks, t.nodes, off + i) == Some(data[i]))
    && (forall x: nat :: (x < off || off + |data| <= x) && ByteAt(a, s.blocks, s.nodes, x).Some? ==>
          ByteAt(a, t.blocks, t.nodes, x) == ByteAt(a, s.blocks, s.nodes, x))
    && t.inode == s.inode.(blocks := t.inode.blocks, ptrs := t.inode.ptrs, size := t.inode.size)
    && t.inode.size == (if data != [] && off + |data| > s.inode.size then off + |data| else s.inode.size)
  }

  /** Every newly mapped data block overlaps the written range. */
  ghost predicate GrewInside(a: Area, s: State, t: State, off: nat, len: nat) {
    forall bi: nat :: DataBlock(a, s.nodes, bi) == None && DataBlock(a, t.nodes, bi).Some? ==>
      Times(bi, a.unit) < off + len && off < Times(bi, a.unit) + a.unit
  }

  lemma WroteNothing(a: Area, s: State, off: nat)
    ensures Wrote(a, s, s, off, []) && GrewInside(a, s, s, off, 0)
  {
    hide ByteAt, DataBlock;
  }

  /** Bytes already written stay written by what follows. */
  lemma WroteOn(a: Area, s: State, t: State, u: State, off: nat, d1: seq<Byte>, d2: seq<Byte>)
    requires Wrote(a, s, t, off, d1) && Wrote(a, t, u, off + |d1|, d2)
    ensures Wrote(a, s, u, off, d1 + d2)
  {
    hide ByteAt, Stepped;
    SteppedTrans(s, t, u);
    forall i | 0 <= i < |d1 + d2|
      ensures ByteAt(a, u.blocks, u.nodes, off + i) == Some((d1 + d2)[i])
    {
      if i < |d1| {
        assert ByteAt(a, t.blocks, t.nodes, off + i) == Some(d1[i]);
      } else {
        assert ByteAt(a, u.blocks, u.nodes, off + |d1| + (i - |d1|)) == Some(d2[i - |d1|]);
      }
    }
  }

  lemma GrewOn(a: Area, s: State, t: State, u: State, off: nat, n1: nat, n2: nat)
    requires GrewInside(a, s, t, off, n1) && GrewInside(a, t, u, off + n1, n2)
    ensures GrewInside(a, s, u, off, n1 + n2)
  {
    hide DataBlock, Times;
  }

  lemma SteppedTrans(s: State, t: State, u: State)
    requires Stepped(s, t) && Stepped(t, u)
    ensures Stepped(s, u)
  {
    assert forall m :: m !in Units(s.free) && m !in Owned(s.nodes) ==> m !in Units(s.free) + Owned(s.nodes);
  }

  /** A read of the written range returns what was written. */
  lemma ReadBack(a: Area, s: State, t: State, off: nat, data: seq<Byte>, r: seq<Byte>)
    requires Wrote(a, s, t, off, data)
    requires IsRead(a, t.blocks, t.nodes, t.inode.size, off, |data|, r)
    ensures r == data
  {
    hide ByteAt;
    assert IsRead(a, t.blocks, t.nodes, t.inode.size, off, |data|, data);
    ReadUnique(a, t.blocks, t.nodes, t.inode.size, off, |data|, r, data);
  }

  /** A read elsewhere, below the old size and in mapped blocks, returns what it returned before. */
  lemma ReadElsewhere(a: Area, s: State, t: State, off: nat, data: seq<Byte>, at: nat, len: nat, r: seq<Byte>,
                      q: seq<Byte>)
    requires Wrote(a, s, t, off, data) && (at + len <= off || off + |data| <= at)
    requires IsRead(a, s.blocks, s.nodes, s.inode.size, at, len, r) && |r| == len
    requires IsRead(a, t.blocks, t.nodes, t.inode.size, at, len, q)
    ensures q == r
  {
    hide ByteAt;
    forall i | 0 <= i < |r|
      ensures ByteAt(a, t.blocks, t.nodes, at + i) == Some(r[i])
    {
    }
    ReadUnique(a, t.blocks, t.nodes, t.inode.size, at, len, q, r);
  }

  /** The piece of a write that falls into one block. */
  lemma BlockWrite(a: Area, s: State, t: State, u: State, off: nat, data: seq<Byte>, bi: nat, bo: nat)
    requires a.unit > 0 && BlockOfPos(off, a.unit) == (bi, bo) && bi < MaxBlocks(Pc(a)) && 0 < |data| <= a.unit - bo
    requires Extended(s, t, Leaf(Pc(a), bi)) && Shape(a, t.nodes) && UnitsSized(a, t.blocks) && |s.blocks| == a.count
    requires DataBlock(a, t.nodes, bi).Some?
    requires var n := DataBlock(a, t.nodes, bi).value;
      n < |t.blocks| && bo + |data| <= |t.blocks[n]| && u.blocks == t.blocks[n := Splice(t.blocks[n], bo, data)]
    requires u == t.(blocks := u.blocks, inode := u.inode)
    requires u.inode == t.inode.(size := if off + |data| > t.inode.size then off + |data| else t.inode.size)
    ensures Wrote(a, s, u, off, data) && GrewInside(a, s, u, off, |data|)
  {
    hide Splice, MaxBlocks, Leaf, Pc, Shape, UnitsSized, Stepped, Counted, DataBlock, ByteAt;
    var n := DataBlock(a, t.nodes, bi).value;
    ExtendedBlocks(a, s, t, bi);
    BlockBytes(a, s.blocks, s.nodes, t.blocks, t.nodes, off, data, bi, bo);
    BlockNode(a, t.nodes, bi);
    SteppedWrite(s, t, u, n);
    CountedKept(s, t, u);
  }

  lemma BlockNode(a: Area, nodes: map<Pos, nat>, bi: nat)
    requires DataBlock(a, nodes, bi).Some?
    ensures DataBlock(a, nodes, bi).value in Owned(nodes)
  {
  }

  lemma CountedKept(s: State, t: State, u: State)
    requires Counted(s, t) && u.nodes == t.nodes && u.used == t.used && u.inode.blocks == t.inode.blocks
    ensures Counted(s, u)
  {
  }

  lemma SteppedWrite(s: State, t: State, u: State, n: nat)
    requires Stepped(s, t) && n in Owned(t.nodes)
    requires u.nodes == t.nodes && u.free == t.free && |u.blocks| == |t.blocks|
    requires forall m :: 0 <= m < |t.blocks| && m != n ==> u.blocks[m] == t.blocks[m]
    ensures Stepped(s, u)
  {
    assert forall m :: m !in Units(s.free) && m !in Owned(s.nodes) ==> m !in Units(t.free) + Owned(t.nodes);
  }

  /** Bytes before and after one block is overwritten in part. */
  lemma BlockBytes(a: Area, blocks: seq<seq<Byte>>, nodes: map<Pos, nat>, mid: seq<seq<Byte>>, grown: map<Pos, nat>,
                   off: nat, data: seq<Byte>, bi: nat, bo: nat)
    requires a.unit > 0 && BlockOfPos(off, a.unit) == (bi, bo) && 0 < |data| <= a.unit - bo
    requires DataBlock(a, grown, bi).Some? && |mid| == |blocks|
    requires var n := DataBlock(a, grown, bi).value; n < |mid| && bo + |data| <= |mid[n]|
    requires forall bj: nat :: DataBlock(a, nodes, bj).Some? ==>
      var n := DataBlock(a, nodes, bj).value; DataBlock(a, grown, bj) == Some(n) && n < |blocks| && mid[n] == blocks[n]
    requires forall bj: nat ::
      DataBlock(a, grown, bj).Some? && DataBlock(a, grown, bj) == DataBlock(a, grown, bi) ==> bj == bi
    ensures var n := DataBlock(a, grown, bi).value;
      var after := mid[n := Splice(mid[n], bo, data)];
      && (forall i :: 0 <= i < |data| ==> ByteAt(a, after, grown, off + i) == Some(data[i]))
      && (forall x: nat :: (x < off || off + |data| <= x) && ByteAt(a, blocks, nodes, x).Some? ==>
            ByteAt(a, after, grown, x) == ByteAt(a, blocks, nodes, x))
  {
    hide Splice, DataBlock, BlockOfPos, Times;
    var n := DataBlock(a, grown, bi).value;
    var after := mid[n := Splice(mid[n], bo, data)];
    forall i | 0 <= i < |data|
      ensures ByteAt(a, after, grown, off + i) == Some(data[i])
    {
      BlockUnique(off + i, a.unit, bi, bo + i);
    }
    forall x: nat | (x < off || off + |data| <= x) && ByteAt(a, blocks, nodes, x).Some?
      ensures ByteAt(a, after, grown, x) == ByteAt(a, blocks, nodes, x)
    {
      var b := BlockOfPos(x, a.unit);
      assert DataBlock(a, nodes, b.0).Some?;
    }
  }

  /** When no data block was added, nothing was written. */
  lemma ExtendedNoWrite(a: Area, s: State, t: State, bi: nat, off: nat)
    requires bi < MaxBlocks(Pc(a)) && Extended(s, t, Leaf(Pc(a), bi)) && Shape(a, t.nodes) && |s.blocks| == a.count
    requires DataBlock(a, t.nodes, bi) == None
    ensures Wrote(a, s, t, off, []) && GrewInside(a, s, t, off, 0)
  {
    hide MaxBlocks, Leaf, Pc, Shape, Stepped, Counted, DataBlock, BlockOfPos;
    ExtendedBlocks(a, s, t, bi);
    forall x: nat | ByteAt(a, s.blocks, s.nodes, x).Some?
      ensures ByteAt(a, t.blocks, t.nodes, x) == ByteAt(a, s.blocks, s.nodes, x)
    {
      assert DataBlock(a, s.nodes, BlockOfPos(x, a.unit).0).Some?;
    }
  }

  /** Sizes that the five pointer levels can reach. */
  predicate SizeOk(a: Area, size: nat) {
    a.unit > 0 && size <= Times(MaxBlocks(Pc(a)), a.unit)
  }

  lemma SmallerSize(a: Area, size: nat, more: nat)
    requires SizeOk(a, more) && size <= more
    ensures SizeOk(a, size)
  {
  }

  lemma InsideLimit(a: Area, size: nat, x: nat)
    requires SizeOk(a, size) && x < size
    ensures BlockOfPos(x, a.unit).0 < MaxBlocks(Pc(a))
  {
    hide MaxBlocks, BlockOfPos;
    var b := BlockOfPos(x, a.unit);
    if b.0 > MaxBlocks(Pc(a)) {
      TimesApart(MaxBlocks(Pc(a)), b.0, a.unit);
    }
  }

  /** They are exactly the sizes whose last byte is in a block that the levels reach. */
  lemma SizeExactly(a: Area, size: nat)
    requires a.unit > 0 && size > 0
    ensures SizeOk(a, size) <==> BlockOfPos(size - 1, a.unit).0 < MaxBlocks(Pc(a))
  {
    hide MaxBlocks, BlockOfPos;
    var b := BlockOfPos(size - 1, a.unit);
    if SizeOk(a, size) {
      InsideLimit(a, size, size - 1);
    }
    if b.0 < MaxBlocks(Pc(a)) {
      TimesApart(b.0, MaxBlocks(Pc(a)), a.unit);
    }
  }

  /** The bytes of part of one block. */
  lemma BlockRead(a: Area, blocks: seq<seq<Byte>>, nodes: map<Pos, nat>, pos: nat, n: nat, r: seq<Byte>)
    requires a.unit > 0 && BlockOfPos(pos, a.unit).1 + |r| <= a.unit
    requires DataBlock(a, nodes, BlockOfPos(pos, a.unit).0) == Some(n) && n < |blocks| && |blocks[n]| == a.unit
    requires r == blocks[n][BlockOfPos(pos, a.unit).1..BlockOfPos(pos, a.unit).1 + |r|]
    ensures forall i :: 0 <= i < |r| ==> ByteAt(a, blocks, nodes, pos + i) == Some(r[i])
  {
    hide DataBlock, BlockOfPos, Times;
    var b := BlockOfPos(pos, a.unit);
    forall i | 0 <= i < |r|
      ensures ByteAt(a, blocks, nodes, pos + i) == Some(r[i])
    {
      BlockUnique(pos + i, a.unit, b.0, b.1 + i);
    }
  }

  lemma HoleHere(a: Area, blocks: seq<seq<Byte>>, nodes: map<Pos, nat>, pos: nat)
    requires a.unit > 0 && DataBlock(a, nodes, BlockOfPos(pos, a.unit).0) == None
    ensures ByteAt(a, blocks, nodes, pos) == None
  {
  }
}
