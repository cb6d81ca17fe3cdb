/**
 Block indexes and the nodes that reach them: 12 direct pointers and four trees of height 1 to 4,
 each pointer block holding `pc` pointers. Tree 5 stands for the single xattr block.
 */
module Positions {
  import opened Arith

  const DIRECT := 12
  const XATTR := 5

  /** Node `index` from the left at `height` above the data blocks in `tree`. */
  datatype Pos = Pos(tree: nat, height: nat, index: nat)

  const XATTR_POS := Pos(XATTR, 0, 0)

  /** Number of data blocks below a node of height `h`. */
  function Span(pc: nat, h: nat): (r: nat)
    ensures pc > 0 ==> r > 0
  {
    if h == 0 then 1 else TimesPositive(pc, Span(pc, h - 1)); Times(pc, Span(pc, h - 1))
  }

  lemma {:induction false} TimesPositive(n: nat, m: nat)
    ensures n > 0 && m > 0 ==> Times(n, m) > 0
  {
    if n > 1 {
      TimesPositive(n - 1, m);
    }
  }

  lemma {:induction false} SpanIsPow(pc: nat, h: nat)
    ensures Span(pc, h) == Pow(pc, h)
  {
    if h > 0 {
      SpanIsPow(pc, h - 1);
      TimesIsMul(pc, Span(pc, h - 1));
    }
  }

  /** The number of data blocks in a tree. */
  function Len(pc: nat, tree: nat): nat {
    if tree == 0 then DIRECT else Span(pc, tree)
  }

  /** The first block index of a tree. */
  function Start(pc: nat, tree: nat): nat {
    if tree == 0 then 0 else Start(pc, tree - 1) + Len(pc, tree - 1)
  }

  function MaxBlocks(pc: nat): nat {
    Start(pc, 5)
  }

  predicate IsTree(t: nat) {
    1 <= t <= 4
  }

  predicate ValidPos(pc: nat, p: Pos) {
    || (p.tree == 0 && p.height == 0 && p.index < DIRECT)
    || (IsTree(p.tree) && p.height <= p.tree && p.index < Span(pc, p.tree - p.height))
    || p == Pos(XATTR, 0, 0)
  }

  function Root(t: nat): Pos {
    Pos(t, t, 0)
  }

  function Child(pc: nat, p: Pos, i: nat): Pos
    requires p.height > 0
  {
    Pos(p.tree, p.height - 1, Times(p.index, pc) + i)
  }

  function Parent(pc: nat, p: Pos): Pos
    requires pc > 0
  {
    Pos(p.tree, p.height + 1, p.index / pc)
  }

  /** The first block index below a node. */
  function First(pc: nat, p: Pos): nat {
    Start(pc, p.tree) + Times(p.index, Span(pc, p.height))
  }

  lemma ParentOfChild(pc: nat, p: Pos, i: nat)
    requires p.height > 0 && i < pc
    ensures Parent(pc, Child(pc, p, i)) == p
  {
    TimesIsMul(p.index, pc);
    DivUnique(p.index, i, pc);
  }

  lemma ChildOfParent(pc: nat, p: Pos)
    requires pc > 0
    ensures p.index % pc < pc && Child(pc, Parent(pc, p), p.index % pc) == p
  {
    DivMod(p.index, pc);
    TimesIsMul(p.index / pc, pc);
  }

  lemma ChildInjective(pc: nat, p: Pos, i: nat, q: Pos, j: nat)
    requires p.height > 0 && q.height > 0 && i < pc && j < pc
    requires Child(pc, p, i) == Child(pc, q, j)
    ensures p == q && i == j
  {
    ParentOfChild(pc, p, i);
    ParentOfChild(pc, q, j);
  }

  lemma ChildValid(pc: nat, p: Pos, i: nat)
    requires ValidPos(pc, p) && p.height > 0 && i < pc
    ensures ValidPos(pc, Child(pc, p, i))
  {
    var width := Span(pc, p.tree - p.height);
    TimesApart(p.index, width, pc);
    TimesIsMul(width, pc);
    TimesIsMul(pc, width);
  }

  /** The children of a node split its range into `pc` equal pieces. */
  lemma FirstOfChild(pc: nat, p: Pos, i: nat)
    requires p.height > 0
    ensures First(pc, Child(pc, p, i)) == First(pc, p) + Times(i, Span(pc, p.height - 1))
  {
    var m := Span(pc, p.height - 1);
    TimesSum(Times(p.index, pc), i, m);
    TimesAssoc(p.index, pc, m);
  }

  lemma {:induction false} TimesAssoc(a: nat, b: nat, m: nat)
    ensures Times(Times(a, b), m) == Times(a, Times(b, m))
  {
    if a > 0 {
      TimesAssoc(a - 1, b, m);
      TimesSum(Times(a - 1, b), b, m);
    }
  }

  /** A node whose first index falls into another node's range at the same height is that node. */
  lemma SameRange(pc: nat, p: Pos, q: Pos)
    requires pc > 0 && p.tree == q.tree && p.height == q.height
    requires First(pc, p) <= First(pc, q) < First(pc, p) + Span(pc, p.height)
    ensures p == q
  {
    var m := Span(pc, p.height);
    if p.index < q.index {
      TimesApart(p.index, q.index, m);
    } else if q.index < p.index {
      TimesApart(q.index, p.index, m);
    }
  }

  // ----- Block indexes -----

  function TreeOf(pc: nat, bi: nat): (t: nat)
    requires bi < MaxBlocks(pc)
    ensures t <= 4 && Start(pc, t) <= bi < Start(pc, t) + Len(pc, t)
  {
    if bi < Start(pc, 1) then 0
    else if bi < Start(pc, 2) then 1
    else if bi < Start(pc, 3) then 2
    else if bi < Start(pc, 4) then 3
    else 4
  }

  /** The position of data block `bi`. */
  function Leaf(pc: nat, bi: nat): (p: Pos)
    requires bi < MaxBlocks(pc)
    ensures ValidPos(pc, p) && p.height == 0
  {
    var t := TreeOf(pc, bi);
    Pos(t, 0, bi - Start(pc, t))
  }

  lemma {:induction false} StartMonotone(pc: nat, t: nat, u: nat)
    requires t < u
    ensures Start(pc, t) + Len(pc, t) <= Start(pc, u)
    decreases u
  {
    assert Start(pc, u) == Start(pc, u - 1) + Len(pc, u - 1);
    if t + 1 < u {
      StartMonotone(pc, t, u - 1);
    }
  }

  /** Tree and offset of a block index are unique. */
  lemma TreeUnique(pc: nat, bi: nat, t: nat)
    requires bi < MaxBlocks(pc) && t <= 4 && Start(pc, t) <= bi < Start(pc, t) + Len(pc, t)
    ensures t == TreeOf(pc, bi)
  {
    var u := TreeOf(pc, bi);
    if t < u {
      StartMonotone(pc, t, u);
    } else if u < t {
      StartMonotone(pc, u, t);
    }
  }

  lemma {:induction false} TimesOne(n: nat)
    ensures Times(n, 1) == n
  {
    TimesIsMul(n, 1);
  }

  lemma FirstOfLeaf(pc: nat, bi: nat)
    requires bi < MaxBlocks(pc)
    ensures First(pc, Leaf(pc, bi)) == bi
  {
    TimesOne(bi - Start(pc, TreeOf(pc, bi)));
  }

  lemma LeafInjective(pc: nat, bi: nat, bj: nat)
    requires bi < MaxBlocks(pc) && bj < MaxBlocks(pc) && Leaf(pc, bi) == Leaf(pc, bj)
    ensures bi == bj
  {
  }

  /** The descent to block `bi` has reached node `p` with `off` blocks still to skip below it. */
  predicate OnPath(pc: nat, bi: nat, p: Pos, off: nat) {
    && bi < MaxBlocks(pc) && IsTree(p.tree) && p.height <= p.tree
    && off < Span(pc, p.height)
    && Leaf(pc, bi) == Pos(p.tree, 0, Times(p.index, Span(pc, p.height)) + off)
  }

  lemma PathStart(pc: nat, bi: nat)
    requires bi < MaxBlocks(pc) && TreeOf(pc, bi) > 0
    ensures OnPath(pc, bi, Root(TreeOf(pc, bi)), bi - Start(pc, TreeOf(pc, bi)))
  {
  }

  /** One step of the descent by quotient and remainder. */
  lemma PathStep(pc: nat, bi: nat, p: Pos, off: nat, m: nat)
    requires pc > 0 && OnPath(pc, bi, p, off) && p.height > 0 && m == Span(pc, p.height - 1)
    ensures m > 0 && Span(pc, p.height) / pc == m
    ensures 0 <= off / m < pc
    ensures 0 <= off % m < m
    ensures OnPath(pc, bi, Child(pc, p, off / m), off % m)
  {
    hide Leaf, MaxBlocks;
    TimesIsMul(pc, m);
    DivUnique(m, 0, pc);
    SplitOffset(pc, p.height, off);
    LeafBelowChild(pc, p, off);
  }

  lemma PathEnd(pc: nat, bi: nat, p: Pos, off: nat)
    requires pc > 0 && OnPath(pc, bi, p, off) && p.height == 1
    ensures off < pc && Child(pc, p, off) == Leaf(pc, bi)
  {
    hide Leaf, MaxBlocks;
    TimesOne(pc);
    assert Span(pc, 1) == Times(pc, Span(pc, 0)) == pc;
  }

  /** A leaf below a node is the leaf below the child that the digit names. */
  lemma LeafBelowChild(pc: nat, p: Pos, off: nat)
    requires pc > 0 && p.height > 0 && off < Span(pc, p.height)
    ensures var m := Span(pc, p.height - 1);
      Times(p.index, Span(pc, p.height)) + off == Times(Child(pc, p, off / m).index, m) + off % m
  {
    var m := Span(pc, p.height - 1);
    SplitOffset(pc, p.height, off);
    TimesSum(Times(p.index, pc), off / m, m);
    TimesAssoc(p.index, pc, m);
  }

  // ----- Digit paths -----

  /** The indexes `off / ipc`, `off % ipc` visited from a root of height `h` down. */
  function Digits(pc: nat, h: nat, off: nat): (ds: seq<nat>)
    requires pc > 0
    ensures |ds| == h
  {
    if h == 0 then []
    else [off / Span(pc, h - 1)] + Digits(pc, h - 1, off % Span(pc, h - 1))
  }

  function Value(pc: nat, ds: seq<nat>): nat {
    if ds == [] then 0 else Times(ds[0], Span(pc, |ds| - 1)) + Value(pc, ds[1..])
  }

  predicate InRange(pc: nat, ds: seq<nat>) {
    forall i :: 0 <= i < |ds| ==> ds[i] < pc
  }

  lemma {:induction false} DigitsValue(pc: nat, h: nat, off: nat)
    requires pc > 0 && off < Span(pc, h)
    ensures InRange(pc, Digits(pc, h, off)) && Value(pc, Digits(pc, h, off)) == off
  {
    if h > 0 {
      var m := Span(pc, h - 1);
      SplitOffset(pc, h, off);
      DigitsValue(pc, h - 1, off % m);
      assert Digits(pc, h, off)[1..] == Digits(pc, h - 1, off % m);
    }
  }

  /** One step of the descent. */
  lemma SplitOffset(pc: nat, h: nat, off: nat)
    requires pc > 0 && h > 0 && off < Span(pc, h)
    ensures var m := Span(pc, h - 1); off / m < pc && off % m < m && Times(off / m, m) + off % m == off
  {
    var m := Span(pc, h - 1);
    TimesIsMul(pc, m);
    TimesIsMul(off / m, m);
    DivBelow(off, pc, m);
    DivMod(off, m);
  }

  lemma {:induction false} ValueDigits(pc: nat, ds: seq<nat>)
    requires pc > 0 && InRange(pc, ds)
    ensures Value(pc, ds) < Span(pc, |ds|) && Digits(pc, |ds|, Value(pc, ds)) == ds
  {
    if ds != [] {
      var m := Span(pc, |ds| - 1);
      ValueDigits(pc, ds[1..]);
      TimesApart(ds[0], pc, m);
      TimesIsMul(ds[0], m);
      DivUnique(ds[0], Value(pc, ds[1..]), m);
    }
  }

  datatype Path = Path(level: nat, digits: seq<nat>, slot: nat)

  /** Level and in-block indexes for a block index; `slot` is the index among the direct pointers. */
  function PathOf(pc: nat, bi: nat): Path
    requires pc > 0 && bi < MaxBlocks(pc)
  {
    var t := TreeOf(pc, bi);
    if t == 0 then Path(0, [], bi) else Path(t, Digits(pc, t, bi - Start(pc, t)), 0)
  }

  predicate ValidPath(pc: nat, p: Path) {
    if p.level == 0 then p.digits == [] && p.slot < DIRECT
    else p.level <= 4 && |p.digits| == p.level && InRange(pc, p.digits) && p.slot == 0
  }

  function IndexOf(pc: nat, p: Path): nat {
    if p.level == 0 then p.slot else Start(pc, p.level) + Value(pc, p.digits)
  }

  /** Block indexes below the limit and in-range paths correspond one to one. */
  lemma PathBijection(pc: nat, bi: nat, p: Path)
    requires pc > 0
    ensures bi < MaxBlocks(pc) ==> ValidPath(pc, PathOf(pc, bi)) && IndexOf(pc, PathOf(pc, bi)) == bi
    ensures ValidPath(pc, p) ==> IndexOf(pc, p) < MaxBlocks(pc) && PathOf(pc, IndexOf(pc, p)) == p
  {
    if bi < MaxBlocks(pc) {
      var t := TreeOf(pc, bi);
      DigitsValue(pc, t, if t == 0 then 0 else bi - Start(pc, t));
    }
    if ValidPath(pc, p) {
      PathCovered(pc, p);
    }
  }

  lemma PathCovered(pc: nat, p: Path)
    requires pc > 0 && ValidPath(pc, p)
    ensures IndexOf(pc, p) < MaxBlocks(pc) && PathOf(pc, IndexOf(pc, p)) == p
  {
    var bi := IndexOf(pc, p);
    StartMonotone(pc, p.level, 5);
    if p.level > 0 {
      ValueDigits(pc, p.digits);
    }
    TreeUnique(pc, bi, p.level);
  }

  /** With 4096-byte blocks the limit is past 2^48 bytes and byte offsets below it fit 64 bits. */
  lemma LimitAt4096()
    ensures 0x1_0000_0000_0000 < MaxBlocks(512) * 4096 < 0x2_0000_0000_0000
  {
    SpanIsPow(512, 1);
    SpanIsPow(512, 2);
    SpanIsPow(512, 3);
    SpanIsPow(512, 4);
    assert Pow(512, 2) == 512 * 512;
    assert Pow(512, 4) == 512 * (512 * Pow(512, 2));
    assert MaxBlocks(512) == Start(512, 4) + Span(512, 4);
    assert Start(512, 4) == Start(512, 2) + Span(512, 2) + Span(512, 3);
  }
}
