/** Truncation and destruction: which nodes the recursive traversal frees, and what is left behind. */
module Release {
  import opened Arith
  import opened Codec
  import opened Regions
  import opened Areas
  import opened Layout
  import opened Positions
  import opened BlockMap
  import opened Frames
  import opened Results

  /** `q` lies strictly below `p`: it is lower and its first block index is in the range of `p`. */
  predicate Under(pc: nat, q: Pos, p: Pos) {
    q.tree == p.tree && q.height < p.height && First(pc, p) <= First(pc, q) < First(pc, p) + Span(pc, p.height)
  }

  /** What a truncation to `from` blocks frees: all direct blocks below 12, and tree nodes by their first index. */
  predicate IsDoomed(pc: nat, from: nat, q: Pos) {
    (q.tree == 0 && from < DIRECT) || (IsTree(q.tree) && from <= First(pc, q))
  }

  function Doomed(pc: nat, nodes: map<Pos, nat>, from: nat): set<Pos> {
    set q | q in nodes && IsDoomed(pc, from, q)
  }

  /** The nodes a call on `p` frees; those of its first children only, up to index `to`. */
  function DoomedUnder(pc: nat, nodes: map<Pos, nat>, p: Pos, from: nat, to: nat): set<Pos> {
    set q | q in nodes && q.tree == p.tree && q.height < p.height && First(pc, p) <= First(pc, q) < to
      && from <= First(pc, q)
  }

  /** The child whose range contains an index. */
  lemma ChildHolding(pc: nat, p: Pos, x: nat) returns (i: nat)
    requires pc > 0 && p.height > 0 && First(pc, p) <= x < First(pc, p) + Span(pc, p.height)
    ensures i < pc && First(pc, Child(pc, p, i)) <= x < First(pc, Child(pc, p, i)) + Span(pc, p.height - 1)
  {
    var off := x - First(pc, p);
    SplitOffset(pc, p.height, off);
    i := off / Span(pc, p.height - 1);
    FirstOfChild(pc, p, i);
  }

  /** Nothing is mapped below an absent node. */
  lemma {:induction false} NothingUnder(a: Area, nodes: map<Pos, nat>, p: Pos, q: Pos)
    requires DataOk(a) && Shape(a, nodes) && p !in nodes && IsTree(p.tree) && p.height <= p.tree && q in nodes
    ensures !Under(Pc(a), q, p)
    decreases p.height
  {
    hide First, Span, Shape;
    var pc := Pc(a);
    if Under(pc, q, p) {
      var i := ChildHolding(pc, p, First(pc, q));
      var c := Child(pc, p, i);
      AbsentChild(a, nodes, p, i);
      if q.height == c.height {
        SameRange(pc, c, q);
      } else {
        NothingUnder(a, nodes, c, q);
      }
    }
  }

  lemma AbsentChild(a: Area, nodes: map<Pos, nat>, p: Pos, i: nat)
    requires DataOk(a) && Shape(a, nodes) && p !in nodes && IsTree(p.tree) && 0 < p.height <= p.tree && i < Pc(a)
    ensures Child(Pc(a), p, i) !in nodes
  {
    ParentOfChild(Pc(a), p, i);
  }

  /** The running index: after child `i`, exactly the doomed nodes below index `First(child i+1)` are freed. */
  lemma DoomedStep(a: Area, nodes: map<Pos, nat>, p: Pos, i: nat, from: nat)
    requires DataOk(a) && Shape(a, nodes) && IsTree(p.tree) && 0 < p.height <= p.tree && i < Pc(a)
    ensures var pc, c := Pc(a), Child(Pc(a), p, i);
      var start, sub := First(pc, c), Span(pc, p.height - 1);
      DoomedUnder(pc, nodes, p, from, start + sub)
        == DoomedUnder(pc, nodes, p, from, start) + DoomedUnder(pc, nodes, c, from, start + sub)
           + (if c in nodes && from <= start then {c} else {})
    ensures First(Pc(a), Child(Pc(a), p, i + 1)) == First(Pc(a), Child(Pc(a), p, i)) + Span(Pc(a), p.height - 1)
    ensures First(Pc(a), p) <= First(Pc(a), Child(Pc(a), p, i))
  {
    hide First, Span, Shape, Times;
    var pc, c := Pc(a), Child(Pc(a), p, i);
    var start, sub := First(pc, c), Span(pc, p.height - 1);
    FirstOfChild(pc, p, i);
    FirstOfChild(pc, p, i + 1);
    TimesNext(i, sub);
    forall q | q in nodes && q.tree == p.tree && q.height == c.height && start <= First(pc, q) < start + sub
      ensures q == c
    {
      SameRange(pc, c, q);
    }
  }

  lemma TimesNext(i: nat, m: nat)
    ensures Times(i + 1, m) == Times(i, m) + m
  {
  }

  /** Before child `i` is visited, nothing freed so far lies in its range. */
  lemma BeforeChild(a: Area, nodes: map<Pos, nat>, p: Pos, i: nat, from: nat, freed: set<Pos>, q: Pos)
    requires DataOk(a) && IsTree(p.tree) && 0 < p.height <= p.tree && i < Pc(a)
    requires forall r :: r in freed ==> !Under(Pc(a), r, p) && r != p
    requires q in freed + DoomedUnder(Pc(a), nodes, p, from, First(Pc(a), Child(Pc(a), p, i)))
    ensures !Under(Pc(a), q, Child(Pc(a), p, i)) && q != Child(Pc(a), p, i)
  {
    hide First, Span, Times;
    var pc, c := Pc(a), Child(Pc(a), p, i);
    FirstOfChild(pc, p, i);
    FirstOfChild(pc, p, i + 1);
    TimesNext(i, Span(pc, p.height - 1));
    ChildInside(pc, p, i);
  }

  lemma BeforeChildren(a: Area, nodes: map<Pos, nat>, p: Pos, i: nat, from: nat, before: set<Pos>, freed: set<Pos>)
    requires DataOk(a) && IsTree(p.tree) && 0 < p.height <= p.tree && i < Pc(a)
    requires forall r :: r in before ==> !Under(Pc(a), r, p) && r != p
    requires freed == before + DoomedUnder(Pc(a), nodes, p, from, First(Pc(a), Child(Pc(a), p, i)))
    ensures forall q :: q in freed ==> !Under(Pc(a), q, Child(Pc(a), p, i)) && q != Child(Pc(a), p, i)
  {
    hide First, Under, DoomedUnder;
    forall q | q in freed
      ensures !Under(Pc(a), q, Child(Pc(a), p, i)) && q != Child(Pc(a), p, i)
    {
      BeforeChild(a, nodes, p, i, from, before, q);
    }
  }

  lemma ChildInside(pc: nat, p: Pos, i: nat)
    requires pc > 0 && p.height > 0 && i < pc
    ensures First(pc, p) <= First(pc, Child(pc, p, i))
    ensures First(pc, Child(pc, p, i)) + Span(pc, p.height - 1) <= First(pc, p) + Span(pc, p.height)
    ensures Span(pc, p.height - 1) > 0
  {
    FirstOfChild(pc, p, i);
    TimesApart(i, pc, Span(pc, p.height - 1));
  }

  /** One round of the loop, as sets of freed nodes. */
  lemma DoomedRound(a: Area, nodes: map<Pos, nat>, p: Pos, i: nat, from: nat, before: set<Pos>, freed: set<Pos>,
                    after: set<Pos>)
    requires DataOk(a) && Shape(a, nodes) && IsTree(p.tree) && 0 < p.height <= p.tree && i < Pc(a)
    requires freed == before + DoomedUnder(Pc(a), nodes, p, from, First(Pc(a), Child(Pc(a), p, i)))
    requires
      var pc, c := Pc(a), Child(Pc(a), p, i);
      after == freed + DoomedUnder(pc, nodes, c, from, First(pc, c) + Span(pc, p.height - 1))
               + (if c in nodes && from <= First(pc, c) then {c} else {})
    ensures First(Pc(a), Child(Pc(a), p, i + 1)) == First(Pc(a), Child(Pc(a), p, i)) + Span(Pc(a), p.height - 1)
    ensures after == before + DoomedUnder(Pc(a), nodes, p, from, First(Pc(a), Child(Pc(a), p, i + 1)))
  {
    hide First, Span, Shape, DoomedUnder;
    DoomedStep(a, nodes, p, i, from);
  }

  /** At the end of the loop all of the range has been covered. */
  lemma DoomedAll(pc: nat, p: Pos)
    requires pc > 0 && p.height > 0
    ensures First(pc, Child(pc, p, pc)) == First(pc, p) + Span(pc, p.height)
    ensures First(pc, Child(pc, p, 0)) == First(pc, p)
  {
    FirstOfChild(pc, p, pc);
    FirstOfChild(pc, p, 0);
  }

  /** An absent node frees nothing. */
  lemma DoomedAbsent(a: Area, nodes: map<Pos, nat>, p: Pos, from: nat)
    requires DataOk(a) && Shape(a, nodes) && p !in nodes && IsTree(p.tree) && p.height <= p.tree
    ensures DoomedUnder(Pc(a), nodes, p, from, First(Pc(a), p) + Span(Pc(a), p.height)) == {}
  {
    hide First, Span, Shape;
    forall q | q in nodes
      ensures !Under(Pc(a), q, p)
    {
      NothingUnder(a, nodes, p, q);
    }
  }

  /** A whole tree: its doomed nodes are those under the root, and the root. */
  lemma DoomedTree(a: Area, nodes: map<Pos, nat>, t: nat, from: nat)
    requires DataOk(a) && Shape(a, nodes) && IsTree(t)
    ensures var pc, r := Pc(a), Root(t);
      (set q | q in nodes && q.tree == t && from <= First(pc, q))
        == DoomedUnder(pc, nodes, r, from, First(pc, r) + Span(pc, t))
          + (if r in nodes && from <= First(pc, r) then {r} else {})
    ensures First(Pc(a), Root(t)) == Start(Pc(a), t)
  {
    hide First, Span, Start, DoomedUnder, Shape;
    var pc, r := Pc(a), Root(t);
    RootFirst(pc, t);
    var below := DoomedUnder(pc, nodes, r, from, First(pc, r) + Span(pc, t));
    var top := if r in nodes && from <= First(pc, r) then {r} else {};
    DoomedInTree(pc, nodes, r, from, First(pc, r) + Span(pc, t));
    forall q
      ensures q in nodes && q.tree == t && from <= First(pc, q) <==> q in below || q in top
    {
      if q in nodes && q.tree == t {
        ShapeAt(a, nodes, q);
        DoomedTreeAt(pc, nodes, t, from, q);
      }
    }
  }

  lemma ShapeAt(a: Area, nodes: map<Pos, nat>, q: Pos)
    requires Shape(a, nodes) && q in nodes
    ensures ValidPos(Pc(a), q)
  {
  }

  lemma DoomedInTree(pc: nat, nodes: map<Pos, nat>, p: Pos, from: nat, to: nat)
    ensures forall q :: q in DoomedUnder(pc, nodes, p, from, to) ==> q in nodes && q.tree == p.tree
  {
  }

  lemma DoomedTreeAt(pc: nat, nodes: map<Pos, nat>, t: nat, from: nat, q: Pos)
    requires pc > 0 && IsTree(t) && q in nodes && q.tree == t && ValidPos(pc, q)
    ensures var r := Root(t);
      from <= First(pc, q) <==>
        q in DoomedUnder(pc, nodes, r, from, First(pc, r) + Span(pc, t)) || (q == r && from <= First(pc, r))
  {
    hide First, Span, Start;
    InTree(pc, q);
    RootFirst(pc, t);
  }

  lemma InTree(pc: nat, q: Pos)
    requires pc > 0 && ValidPos(pc, q) && IsTree(q.tree)
    ensures Start(pc, q.tree) <= First(pc, q) < Start(pc, q.tree) + Span(pc, q.tree)
    ensures q.height <= q.tree && (q.height == q.tree ==> q == Root(q.tree))
  {
    var m := Span(pc, q.height);
    TimesApart(q.index, Span(pc, q.tree - q.height), m);
    SpanProduct(pc, q.tree - q.height, q.height);
  }

  lemma {:induction false} SpanProduct(pc: nat, i: nat, j: nat)
    ensures Times(Span(pc, i), Span(pc, j)) == Span(pc, i + j)
  {
    if i == 0 {
      TimesIsMul(1, Span(pc, j));
    } else {
      SpanProduct(pc, i - 1, j);
      TimesAssoc(pc, Span(pc, i - 1), Span(pc, j));
    }
  }

  /** What has been freed when the trees below `tree` are done. */
  function DoomedBefore(pc: nat, nodes: map<Pos, nat>, from: nat, tree: nat): set<Pos> {
    set q | q in nodes && IsDoomed(pc, from, q) && (q.tree == 0 || q.tree < tree)
  }

  /** The direct blocks among the first `n`. */
  function DirectBefore(nodes: map<Pos, nat>, n: nat): set<Pos> {
    set q | q in nodes && q.tree == 0 && q.index < n
  }

  lemma DirectStep(pc: nat, nodes: map<Pos, nat>, n: nat)
    requires n < DIRECT && forall q :: q in nodes ==> ValidPos(pc, q)
    ensures DirectBefore(nodes, n + 1) == DirectBefore(nodes, n)
      + (if Pos(0, 0, n) in nodes then {Pos(0, 0, n)} else {})
    ensures Pos(0, 0, n) !in DirectBefore(nodes, n)
  {
  }

  lemma DirectDone(pc: nat, nodes: map<Pos, nat>, from: nat)
    requires forall q :: q in nodes ==> ValidPos(pc, q)
    ensures from < DIRECT ==> DirectBefore(nodes, DIRECT) == DoomedBefore(pc, nodes, from, 1)
    ensures from >= DIRECT ==> DoomedBefore(pc, nodes, from, 1) == {}
    ensures DirectBefore(nodes, 0) == {}
    ensures DoomedBefore(pc, nodes, from, 5) == Doomed(pc, nodes, from)
  {
    hide First;
  }

  lemma TreeStep(a: Area, nodes: map<Pos, nat>, from: nat, t: nat)
    requires DataOk(a) && Shape(a, nodes) && IsTree(t)
    ensures var pc, r := Pc(a), Root(t);
      && First(pc, r) == Start(pc, t)
      && DoomedBefore(pc, nodes, from, t + 1)
           == DoomedBefore(pc, nodes, from, t) + DoomedUnder(pc, nodes, r, from, First(pc, r) + Span(pc, t))
              + (if r in nodes && from <= First(pc, r) then {r} else {})
    ensures forall q :: q in DoomedBefore(Pc(a), nodes, from, t) ==> !Under(Pc(a), q, Root(t)) && q != Root(t)
    ensures Root(t) !in DoomedUnder(Pc(a), nodes, Root(t), from, First(Pc(a), Root(t)) + Span(Pc(a), t))
  {
    hide First, Span, Shape;
    DoomedTree(a, nodes, t, from);
    var pc := Pc(a);
    assert DoomedBefore(pc, nodes, from, t + 1)
        == DoomedBefore(pc, nodes, from, t) + (set q | q in nodes && q.tree == t && from <= First(pc, q));
  }

  // ----- The state while nodes are being freed -----

  function BlocksOf(nodes: map<Pos, nat>, freed: set<Pos>): set<nat> {
    set p | p in freed && p in nodes :: nodes[p]
  }

  /** From state `s`, exactly the nodes `freed` have been given back so far. */
  ghost predicate Partial(s: State, t: State, freed: set<Pos>) {
    && freed <= s.nodes.Keys && |t.blocks| == |s.blocks|
    && Units(t.free) == Units(s.free) + BlocksOf(s.nodes, freed)
    && t.used == s.used - |freed| && t.inode.blocks == s.inode.blocks - |freed|
    && (forall p :: p in s.nodes && p !in freed && s.nodes[p] < |s.blocks| ==>
      t.blocks[s.nodes[p]] == s.blocks[s.nodes[p]])
    && (forall m :: 0 <= m < |s.blocks| && m !in Owned(s.nodes) ==> t.blocks[m] == s.blocks[m])
  }

  lemma PartialStart(s: State)
    ensures Partial(s, s, {})
  {
  }

  /** Freeing one more node. */
  lemma PartialStep(a: Area, s: State, t: State, u: State, freed: set<Pos>, p: Pos)
    requires Shape(a, s.nodes) && Partial(s, t, freed) && p in s.nodes && p !in freed
    requires |u.blocks| == |t.blocks| && Units(u.free) == Units(t.free) + {s.nodes[p]}
    requires u.used == t.used - 1 && u.inode.blocks == t.inode.blocks - 1
    requires forall m :: 0 <= m < |t.blocks| && m != s.nodes[p] ==> u.blocks[m] == t.blocks[m]
    ensures Partial(s, u, freed + {p})
  {
    assert BlocksOf(s.nodes, freed + {p}) == BlocksOf(s.nodes, freed) + {s.nodes[p]};
    assert s.nodes[p] in Owned(s.nodes);
  }

  /** A node not yet freed is not on the free list, and its block is as it was. */
  lemma PartialNode(a: Area, s: State, t: State, freed: set<Pos>, p: Pos)
    requires Shape(a, s.nodes) && Partial(s, t, freed) && p in s.nodes && p !in freed && |s.blocks| == a.count
    requires forall q :: q in s.nodes ==> s.nodes[q] !in Units(s.free)
    ensures s.nodes[p] < a.count && s.nodes[p] !in Units(t.free) && t.blocks[s.nodes[p]] == s.blocks[s.nodes[p]]
    ensures |freed| < |s.nodes|
  {
    assert s.nodes[p] !in BlocksOf(s.nodes, freed);
    SubsetSize(freed, s.nodes.Keys - {p});
  }

  /** Since state `s` the blocks of `gone` went to the free list, each once, and no other foreign block changed. */
  ghost predicate GivenBack(s: State, blocks: seq<seq<Byte>>, free: seq<Region>, used: nat, gone: set<Pos>) {
    && |blocks| == |s.blocks|
    && Units(free) == Units(s.free) + BlocksOf(s.nodes, gone)
    && used == s.used - |gone|
    && forall m :: 0 <= m < |s.blocks| && m !in Owned(s.nodes) ==> blocks[m] == s.blocks[m]
  }

  lemma GivenNothing(s: State)
    ensures GivenBack(s, s.blocks, s.free, s.used, {})
  {
    assert BlocksOf(s.nodes, {}) == {};
  }

  lemma PartialGiven(s: State, t: State, gone: set<Pos>)
    requires Partial(s, t, gone)
    ensures GivenBack(s, t.blocks, t.free, t.used, gone)
  {
    hide Units, BlocksOf, Owned;
  }

  /** A node not given back is not free. */
  lemma GivenNode(a: Area, s: State, blocks: seq<seq<Byte>>, free: seq<Region>, used: nat, gone: set<Pos>, p: Pos)
    requires GivenBack(s, blocks, free, used, gone) && Shape(a, s.nodes) && p in s.nodes && p !in gone
    requires forall q :: q in s.nodes ==> s.nodes[q] !in Units(s.free)
    ensures s.nodes[p] < a.count && s.nodes[p] !in Units(free)
  {
    assert s.nodes[p] !in BlocksOf(s.nodes, gone);
  }

  lemma GivenStep(s: State, blocks: seq<seq<Byte>>, free: seq<Region>, used: nat, gone: set<Pos>, p: Pos,
                  after: seq<seq<Byte>>, rest: seq<Region>)
    requires GivenBack(s, blocks, free, used, gone) && p in s.nodes && p !in gone && used > 0
    requires |after| == |blocks| && Units(rest) == Units(free) + {s.nodes[p]}
    requires forall m :: 0 <= m < |blocks| && m != s.nodes[p] ==> after[m] == blocks[m]
    ensures GivenBack(s, after, rest, used - 1, gone + {p})
  {
    assert BlocksOf(s.nodes, gone + {p}) == BlocksOf(s.nodes, gone) + {s.nodes[p]};
    assert s.nodes[p] in Owned(s.nodes);
  }

  lemma DoomedZero(a: Area, nodes: map<Pos, nat>)
    requires Shape(a, nodes)
    ensures Doomed(Pc(a), nodes, 0) == nodes.Keys - {XATTR_POS}
  {
    hide First, Span;
  }

  /** The nodes `destroy` gives back: all of them, or only the xattr block when the size is 0. */
  function DestroyFrees(size: nat, nodes: map<Pos, nat>): set<Pos> {
    if size > 0 then nodes.Keys else nodes.Keys * {XATTR_POS}
  }

  /** Every block of the file is on the free list, and the use counter fell by as many. */
  ghost predicate AllGiven(s: State, free: seq<Region>, used: nat) {
    Units(free) == Units(s.free) + Owned(s.nodes) && used == s.used - |s.nodes|
  }

  /** `destroy` gives everything back exactly when the size is positive or there is no block but the xattr block. */
  lemma DestroyComplete(s: State, blocks: seq<seq<Byte>>, free: seq<Region>, used: nat, size: nat)
    requires GivenBack(s, blocks, free, used, DestroyFrees(size, s.nodes))
    ensures AllGiven(s, free, used) <==> size > 0 || s.nodes.Keys <= {XATTR_POS}
  {
    var gone := DestroyFrees(size, s.nodes);
    if gone == s.nodes.Keys {
      assert BlocksOf(s.nodes, gone) == Owned(s.nodes);
    } else {
      var p :| p in s.nodes && p !in gone;
      SubsetSize(gone, s.nodes.Keys - {p});
      assert |gone| < |s.nodes.Keys| == |s.nodes|;
    }
  }

  // ----- After the traversal -----

  function Without(nodes: map<Pos, nat>, gone: set<Pos>): map<Pos, nat> {
    map p | p in nodes && p !in gone :: nodes[p]
  }

  lemma WithoutFacts(nodes: map<Pos, nat>, gone: set<Pos>)
    requires gone <= nodes.Keys
    ensures |Without(nodes, gone)| == |nodes| - |gone|
    ensures Owned(Without(nodes, gone)) + BlocksOf(nodes, gone) == Owned(nodes)
  {
    assert Without(nodes, gone).Keys == nodes.Keys - gone;
    forall n | n in Owned(nodes)
      ensures n in Owned(Without(nodes, gone)) + BlocksOf(nodes, gone)
    {
      var p :| p in nodes && nodes[p] == n;
      if p !in gone {
        assert Without(nodes, gone)[p] == n;
      }
    }
  }

  /** Freed nodes conserve blocks: they leave the file exactly as they join the free list. */
  lemma PartialConserves(s: State, t: State, gone: set<Pos>)
    requires Partial(s, t, gone) && t.nodes == Without(s.nodes, gone)
    ensures Stepped(s, t) && Counted(s, t)
    ensures |t.nodes| == |s.nodes| - |gone|
  {
    hide Units, Without, BlocksOf;
    WithoutFacts(s.nodes, gone);
    assert Units(t.free) + Owned(t.nodes) == Units(s.free) + Owned(s.nodes);
  }

  /** The inode pointers with the doomed ones cleared. */
  predicate PtrsCleared(a: Area, f: FileMap, ptrs: seq<seq<nat>>, from: nat) {
    && PtrsShaped(f.ptrs) && PtrsShaped(ptrs)
    && (forall k :: 0 <= k < DIRECT ==> ptrs[0][k] == if from < DIRECT then 0 else f.ptrs[0][k])
    && (forall t :: 1 <= t <= 4 ==> ptrs[t][0] == if from <= Start(Pc(a), t) then 0 else f.ptrs[t][0])
  }

  /** Tree roots below `tree` have been treated, the others and the direct pointers are as before. */
  predicate TreesCleared(pc: nat, ptrs: seq<seq<nat>>, now: seq<seq<nat>>, from: nat, tree: nat) {
    && PtrsShaped(ptrs) && PtrsShaped(now) && now[0] == ptrs[0]
    && forall t :: 1 <= t <= 4 ==> now[t][0] == if t < tree && from <= Start(pc, t) then 0 else ptrs[t][0]
  }

  /** The first `n` direct pointers are cleared, the other pointers are as before. */
  predicate DirectCleared(ptrs: seq<seq<nat>>, now: seq<seq<nat>>, n: nat) {
    && PtrsShaped(ptrs) && PtrsShaped(now)
    && (forall k :: 0 <= k < DIRECT ==> now[0][k] == if k < n then 0 else ptrs[0][k])
    && forall t :: 1 <= t <= 4 ==> now[t] == ptrs[t]
  }

  lemma ClearedStart(pc: nat, ptrs: seq<seq<nat>>, from: nat)
    requires PtrsShaped(ptrs)
    ensures TreesCleared(pc, ptrs, ptrs, from, 1) && DirectCleared(ptrs, ptrs, 0)
  {
  }

  lemma DirectClear(ptrs: seq<seq<nat>>, now: seq<seq<nat>>, n: nat)
    requires DirectCleared(ptrs, now, n) && n < DIRECT
    ensures now[0][n] == ptrs[0][n]
    ensures DirectCleared(ptrs, WithPtr(now, 0, n, 0), n + 1)
    ensures ptrs[0][n] == 0 ==> DirectCleared(ptrs, now, n + 1)
  {
  }

  lemma TreeClear(pc: nat, ptrs: seq<seq<nat>>, now: seq<seq<nat>>, from: nat, t: nat)
    requires TreesCleared(pc, ptrs, now, from, t) && IsTree(t)
    ensures now[t][0] == ptrs[t][0]
    ensures from <= Start(pc, t) ==> TreesCleared(pc, ptrs, WithPtr(now, t, 0, 0), from, t + 1)
    ensures from > Start(pc, t) || ptrs[t][0] == 0 ==> TreesCleared(pc, ptrs, now, from, t + 1)
  {
    hide Start;
  }

  lemma AllCleared(a: Area, f: FileMap, mid: seq<seq<nat>>, now: seq<seq<nat>>, from: nat)
    requires DirectCleared(f.ptrs, mid, if from < DIRECT then DIRECT else 0)
    requires TreesCleared(Pc(a), mid, now, from, 5)
    ensures PtrsCleared(a, f, now, from) && PtrsShaped(now)
  {
    hide Start;
  }

  /** The map left by a truncation: the pointer cache stays as it was. */
  function Truncated(a: Area, f: FileMap, ptrs: seq<seq<nat>>, from: nat): FileMap {
    f.(ptrs := ptrs, nodes := Without(f.nodes, Doomed(Pc(a), f.nodes, from)))
  }

  /** No cached pointer block is at or above the cut. */
  ghost predicate NoStale(pc: nat, f: FileMap, from: nat) {
    forall h :: 0 <= h < |f.cache| && h < |f.at| && f.cache[h].Loaded? ==> First(pc, f.at[h]) < from
  }

  /** A pointer block that survives although one of its mapped children is freed. */
  predicate Straddles(a: Area, nodes: map<Pos, nat>, from: nat, p: Pos) {
    && p in nodes && p.height > 0 && First(Pc(a), p) < from
    && exists i :: 0 <= i < Pc(a) && Child(Pc(a), p, i) in nodes && from <= First(Pc(a), Child(Pc(a), p, i))
  }

  ghost predicate NoStraddle(a: Area, nodes: map<Pos, nat>, from: nat) {
    forall p :: p in nodes ==> !Straddles(a, nodes, from, p)
  }

  /** A cut after which the file is coherent: nothing dangles on disk and nothing is stale in the cache. */
  ghost predicate SafeCut(a: Area, f: FileMap, from: nat) {
    NoStraddle(a, f.nodes, from) && NoStale(Pc(a), f, from)
  }

  lemma SurvivorParent(a: Area, nodes: map<Pos, nat>, from: nat, p: Pos)
    requires DataOk(a) && Shape(a, nodes) && p in nodes && !IsDoomed(Pc(a), from, p)
    requires IsTree(p.tree) && p.height < p.tree
    ensures Parent(Pc(a), p) in nodes && !IsDoomed(Pc(a), from, Parent(Pc(a), p))
  {
    var pc := Pc(a);
    ChildOfParent(pc, p);
    FirstOfChild(pc, Parent(pc, p), p.index % pc);
  }

  lemma TruncatedShape(a: Area, f: FileMap, from: nat)
    requires DataOk(a) && Shape(a, f.nodes)
    ensures Shape(a, Without(f.nodes, Doomed(Pc(a), f.nodes, from)))
  {
    hide IsDoomed, First, Span;
    var g := Without(f.nodes, Doomed(Pc(a), f.nodes, from));
    forall p | p in g && IsTree(p.tree) && p.height < p.tree
      ensures Parent(Pc(a), p) in g
    {
      SurvivorParent(a, f.nodes, from, p);
    }
  }

  lemma TruncatedRoots(a: Area, f: FileMap, ptrs: seq<seq<nat>>, from: nat)
    requires DataOk(a) && Roots(a, f) && PtrsCleared(a, f, ptrs, from)
    ensures Roots(a, Truncated(a, f, ptrs, from))
  {
    var g := Truncated(a, f, ptrs, from);
    forall p | Top(p)
      ensures RootWord(g, p) == Entry(a, g.nodes, p)
    {
      assert RootWord(f, p) == Entry(a, f.nodes, p);
      if p.tree == 0 {
        assert ptrs[0][p.index] == if from < DIRECT then 0 else f.ptrs[0][p.index];
      } else if p.tree != XATTR {
        assert First(Pc(a), p) == Start(Pc(a), p.tree);
      }
    }
  }

  /** The links of a survivor are right exactly when it does not straddle. */
  lemma SurvivorLinks(a: Area, nodes: map<Pos, nat>, from: nat, p: Pos, words: seq<nat>)
    requires DataOk(a) && Linked(a, nodes, p, words) && p in nodes && IsTree(p.tree) && !IsDoomed(Pc(a), from, p)
    ensures Linked(a, Without(nodes, Doomed(Pc(a), nodes, from)), p, words) <==> !Straddles(a, nodes, from, p)
  {
    hide First, Span;
    var g := Without(nodes, Doomed(Pc(a), nodes, from));
    if Straddles(a, nodes, from, p) {
      var i :| 0 <= i < Pc(a) && Child(Pc(a), p, i) in nodes && from <= First(Pc(a), Child(Pc(a), p, i));
      EntryZero(a, nodes, Child(Pc(a), p, i));
      assert words[i] != Entry(a, g, Child(Pc(a), p, i));
    } else {
      forall i | 0 <= i < Pc(a)
        ensures Entry(a, g, Child(Pc(a), p, i)) == words[i]
      {
        assert Child(Pc(a), p, i).tree == p.tree;
      }
    }
  }

  /** A survivor shows the words it had on disk, cached or not. */
  lemma TruncatedWords(a: Area, s: State, f: FileMap, t: State, ptrs: seq<seq<nat>>, from: nat, p: Pos)
    requires CacheOk(a, f) && Clean(s.blocks, f) && p in Truncated(a, f, ptrs, from).nodes && p.height > 0
    requires f.nodes[p] < |s.blocks| == |t.blocks| && t.blocks[f.nodes[p]] == s.blocks[f.nodes[p]]
    ensures WordsAt(t.blocks, Truncated(a, f, ptrs, from), p) == Words(s.blocks[f.nodes[p]])
  {
    hide Doomed, Words;
    CleanWords(a, s.blocks, f, p);
  }

  /** The cache is still one of the file exactly when no slot is stale. */
  lemma TruncatedCache(a: Area, f: FileMap, ptrs: seq<seq<nat>>, from: nat)
    requires CacheOk(a, f) && Shape(a, f.nodes)
    ensures CacheOk(a, Truncated(a, f, ptrs, from)) <==> NoStale(Pc(a), f, from)
  {
    hide First, Ptr;
    var g := Truncated(a, f, ptrs, from);
    forall h | 0 <= h < 4
      ensures SlotOk(a, g, h) <==> !f.cache[h].Loaded? || First(Pc(a), f.at[h]) < from
    {
      assert SlotOk(a, f, h);
      if f.cache[h].Loaded? {
        TreeNode(a, f.nodes, f.at[h]);
      }
    }
  }

  /** One node after the truncation. */
  lemma TruncatedAt(a: Area, s: State, f: FileMap, t: State, ptrs: seq<seq<nat>>, from: nat, p: Pos)
    requires FileOk(a, s.blocks, s.free, f) && Clean(s.blocks, f) && s.nodes == f.nodes && p in f.nodes
    requires Partial(s, t, Doomed(Pc(a), f.nodes, from))
    ensures var g := Truncated(a, f, ptrs, from);
      && (p !in g.nodes ==> !Straddles(a, f.nodes, from, p))
      && (p in g.nodes ==> f.nodes[p] !in Units(t.free))
      && (p in g.nodes && p.height > 0 ==>
            (Linked(a, g.nodes, p, WordsAt(t.blocks, g, p)) <==> !Straddles(a, f.nodes, from, p)))
      && (p.height == 0 ==> !Straddles(a, f.nodes, from, p))
  {
    hide First, Span, Words, Linked, Straddles, Roots, Shape, IsDoomed, Clean, CacheOk, Links, Partial, WordsAt;
    var g := Truncated(a, f, ptrs, from);
    DoomedStays(a, f.nodes, from, p);
    if p in g.nodes {
      PartialNode(a, s, t, Doomed(Pc(a), f.nodes, from), p);
      if p.height > 0 {
        CleanLinked(a, s.blocks, f, p);
        TreeNode(a, f.nodes, p);
        SurvivorLinks(a, f.nodes, from, p, Words(s.blocks[f.nodes[p]]));
        PartialSize(s, t, Doomed(Pc(a), f.nodes, from));
        TruncatedWords(a, s, f, t, ptrs, from, p);
      }
    }
    if p.height == 0 {
      NoChildren(a, f.nodes, from, p);
    }
  }

  lemma PartialSize(s: State, t: State, freed: set<Pos>)
    requires Partial(s, t, freed)
    ensures |t.blocks| == |s.blocks|
  {
  }

  /**
   Truncation leaves a coherent file exactly when no surviving pointer block has a freed child, because the cleared
   words of surviving blocks are never written back, and no freed pointer block is in the cache, because the cache
   is never emptied.
   */
  lemma TruncatedOk(a: Area, s: State, f: FileMap, t: State, ptrs: seq<seq<nat>>, from: nat)
    requires FileOk(a, s.blocks, s.free, f) && Clean(s.blocks, f) && s.nodes == f.nodes
    requires Partial(s, t, Doomed(Pc(a), f.nodes, from)) && UnitsSized(a, t.blocks) && PtrsCleared(a, f, ptrs, from)
    ensures Coherent(a, t.blocks, Truncated(a, f, ptrs, from)) <==> SafeCut(a, f, from)
    ensures forall p :: p in Truncated(a, f, ptrs, from).nodes ==> f.nodes[p] !in Units(t.free)
  {
    hide First, Span, Words, Linked, Straddles, Roots, Shape, PtrsCleared, IsDoomed, Clean, Partial, WordsAt, SlotOk,
      NoStale;
    var g := Truncated(a, f, ptrs, from);
    TruncatedShape(a, f, from);
    TruncatedRoots(a, f, ptrs, from);
    TruncatedCache(a, f, ptrs, from);
    forall p | p in f.nodes
      ensures p !in g.nodes ==> !Straddles(a, f.nodes, from, p)
      ensures p in g.nodes ==> f.nodes[p] !in Units(t.free)
      ensures p in g.nodes && p.height > 0 ==>
        (Linked(a, g.nodes, p, WordsAt(t.blocks, g, p)) <==> !Straddles(a, f.nodes, from, p))
      ensures p.height == 0 ==> !Straddles(a, f.nodes, from, p)
    {
      TruncatedAt(a, s, f, t, ptrs, from, p);
    }
  }

  /** Where no slot is stale the cache stays clean, so another truncation may follow. */
  lemma TruncatedClean(a: Area, s: State, f: FileMap, t: State, ptrs: seq<seq<nat>>, from: nat)
    requires FileOk(a, s.blocks, s.free, f) && Clean(s.blocks, f) && s.nodes == f.nodes
    requires Partial(s, t, Doomed(Pc(a), f.nodes, from)) && NoStale(Pc(a), f, from)
    ensures Clean(t.blocks, Truncated(a, f, ptrs, from))
  {
    hide First, Words, Linked, Roots, Shape, Links, Partial, Ptr;
    PartialSize(s, t, Doomed(Pc(a), f.nodes, from));
    forall h | 0 <= h < 4
      ensures SlotClean(t.blocks, Truncated(a, f, ptrs, from), h)
    {
      assert SlotOk(a, f, h);
      if f.cache[h].Loaded? {
        TreeNode(a, f.nodes, f.at[h]);
        PartialNode(a, s, t, Doomed(Pc(a), f.nodes, from), f.at[h]);
      }
    }
  }

  /** The block behind a stale slot is free, and the next write-back of the slot goes there. */
  lemma StaleSlot(a: Area, s: State, f: FileMap, t: State, from: nat, h: nat)
    requires FileOk(a, s.blocks, s.free, f) && s.nodes == f.nodes && Partial(s, t, Doomed(Pc(a), f.nodes, from))
    requires h < 4 && f.cache[h].Loaded? && from <= First(Pc(a), f.at[h])
    ensures f.at[h] in f.nodes && f.cache[h].ptr == Ptr(a, f.nodes[f.at[h]]) && f.nodes[f.at[h]] in Units(t.free)
  {
    hide First, Linked, Roots, Links, Ptr, Shape;
    assert SlotOk(a, f, h);
    TreeNode(a, f.nodes, f.at[h]);
    assert f.nodes[f.at[h]] in BlocksOf(s.nodes, Doomed(Pc(a), f.nodes, from));
  }

  /** A surviving pointer block with a freed child keeps, on disk, a word that points at a free block. */
  lemma DanglingWord(a: Area, s: State, f: FileMap, t: State, from: nat, p: Pos, i: nat)
    requires FileOk(a, s.blocks, s.free, f) && Clean(s.blocks, f) && s.nodes == f.nodes
    requires Partial(s, t, Doomed(Pc(a), f.nodes, from))
    requires p in f.nodes && p.height > 0 && First(Pc(a), p) < from && i < Pc(a)
    requires var c := Child(Pc(a), p, i); c in f.nodes && from <= First(Pc(a), c)
    ensures var n := f.nodes[Child(Pc(a), p, i)];
      && f.nodes[p] < |t.blocks| == |s.blocks| && f.nodes[p] !in Units(t.free)
      && |Words(t.blocks[f.nodes[p]])| == Pc(a) && Words(t.blocks[f.nodes[p]])[i] == Ptr(a, n) && n in Units(t.free)
  {
    hide First, Words, Linked, Roots, Links, Ptr, Shape, Clean, Partial;
    TreeNode(a, f.nodes, p);
    PartialSize(s, t, Doomed(Pc(a), f.nodes, from));
    PartialNode(a, s, t, Doomed(Pc(a), f.nodes, from), p);
    CleanLinked(a, s.blocks, f, p);
    LinkedAt(a, f.nodes, p, Words(s.blocks[f.nodes[p]]), i);
    DoomedFree(s, t, Doomed(Pc(a), f.nodes, from), Child(Pc(a), p, i));
  }

  lemma DoomedFree(s: State, t: State, gone: set<Pos>, p: Pos)
    requires Partial(s, t, gone) && p in gone
    ensures p in s.nodes && s.nodes[p] in Units(t.free)
  {
    assert s.nodes[p] in BlocksOf(s.nodes, gone);
  }

  lemma NoChildren(a: Area, nodes: map<Pos, nat>, from: nat, p: Pos)
    requires p.height == 0
    ensures !Straddles(a, nodes, from, p)
  {
  }

  lemma TreeNode(a: Area, nodes: map<Pos, nat>, p: Pos)
    requires Shape(a, nodes) && p in nodes && p.height > 0
    ensures IsTree(p.tree)
  {
  }

  /** A freed node does not straddle. */
  lemma DoomedStays(a: Area, nodes: map<Pos, nat>, from: nat, p: Pos)
    requires DataOk(a) && Shape(a, nodes) && p in nodes
    ensures p in Doomed(Pc(a), nodes, from) ==> !Straddles(a, nodes, from, p)
  {
  }

  // ----- Lookups after a truncation -----

  lemma LeafDoomed(a: Area, from: nat, bi: nat)
    requires DataOk(a) && bi < MaxBlocks(Pc(a))
    ensures IsDoomed(Pc(a), from, Leaf(Pc(a), bi)) <==> from <= bi || (bi < DIRECT && from < DIRECT)
  {
    var pc := Pc(a);
    FirstOfLeaf(pc, bi);
    assert Start(pc, 1) == DIRECT;
    if TreeOf(pc, bi) > 1 {
      StartMonotone(pc, 1, TreeOf(pc, bi));
    }
  }

  /** Nothing at or above the cut is mapped afterwards, and lookups from block 12 on below it are unchanged. */
  lemma TruncatedLookup(a: Area, nodes: map<Pos, nat>, from: nat, bi: nat)
    requires DataOk(a) && bi < MaxBlocks(Pc(a))
    ensures var after := Without(nodes, Doomed(Pc(a), nodes, from));
      Lookup(a, after, bi) == if from <= bi || (bi < DIRECT && from < DIRECT) then None else Lookup(a, nodes, bi)
  {
    hide Leaf, MaxBlocks, IsDoomed, Ptr;
    LeafDoomed(a, from, bi);
  }

  /**
   Every block below the cut keeps its mapping exactly when the cut is past the direct pointers or none below it is set.
   */
  lemma TruncateKeepsBelow(a: Area, nodes: map<Pos, nat>, from: nat)
    requires DataOk(a)
    ensures (forall bi: nat :: bi < from && bi < MaxBlocks(Pc(a)) ==>
               Lookup(a, Without(nodes, Doomed(Pc(a), nodes, from)), bi) == Lookup(a, nodes, bi))
       <==> from >= DIRECT || forall k: nat :: k < from ==> Pos(0, 0, k) !in nodes
  {
    hide MaxBlocks, IsDoomed, Ptr, Lookup;
    var after := Without(nodes, Doomed(Pc(a), nodes, from));
    forall bi: nat | bi < MaxBlocks(Pc(a))
      ensures Lookup(a, after, bi)
           == if from <= bi || (bi < DIRECT && from < DIRECT) then None else Lookup(a, nodes, bi)
    {
      TruncatedLookup(a, nodes, from, bi);
    }
    forall k: nat | k < DIRECT
      ensures k < MaxBlocks(Pc(a)) && (Lookup(a, nodes, k) == None <==> Pos(0, 0, k) !in nodes)
    {
      DirectLookup(a, nodes, k);
    }
  }

  lemma DirectLookup(a: Area, nodes: map<Pos, nat>, k: nat)
    requires DataOk(a) && k < DIRECT
    ensures k < MaxBlocks(Pc(a)) && (Lookup(a, nodes, k) == None <==> Pos(0, 0, k) !in nodes)
  {
    StartMonotone(Pc(a), 0, 5);
    TreeUnique(Pc(a), k, 0);
  }

  /** Below the cut the plain descent meets surviving blocks only, so it finds what it found before. */
  lemma {:induction false} DescendKept(a: Area, s: State, t: State, f: FileMap, from: nat, p: Pos, off: nat)
    requires FileOk(a, s.blocks, s.free, f) && Clean(s.blocks, f) && s.nodes == f.nodes
    requires Partial(s, t, Doomed(Pc(a), f.nodes, from))
    requires IsTree(p.tree) && p.height <= p.tree && off < Span(Pc(a), p.height) && First(Pc(a), p) + off < from
    ensures Pc(a) > 0 && |s.blocks| == |t.blocks| == a.count
    ensures Descend(a, t.blocks, Entry(a, f.nodes, p), p.height, off)
      == Descend(a, s.blocks, Entry(a, f.nodes, p), p.height, off)
    decreases p.height
  {
    hide Span, Words, Linked, Roots, Shape, CacheOk, Links, Clean, Partial, BlockOf, Ptr, First, Doomed;
    var pc := Pc(a);
    PartialSize(s, t, Doomed(pc, f.nodes, from));
    EntryZero(a, f.nodes, p);
    if p in f.nodes && p.height > 0 {
      NotDoomed(a, f.nodes, from, p);
      PartialNode(a, s, t, Doomed(pc, f.nodes, from), p);
      CleanLinked(a, s.blocks, f, p);
      SplitOffset(pc, p.height, off);
      var m := Span(pc, p.height - 1);
      FirstOfChild(pc, p, off / m);
      LinkedAt(a, f.nodes, p, Words(s.blocks[f.nodes[p]]), off / m);
      DescendKept(a, s, t, f, from, Child(pc, p, off / m), off % m);
    }
  }

  lemma NotDoomed(a: Area, nodes: map<Pos, nat>, from: nat, p: Pos)
    requires IsTree(p.tree) && First(Pc(a), p) < from
    ensures p !in Doomed(Pc(a), nodes, from)
  {
  }

  /** On disk, too, every lookup from block 12 on below the cut is unchanged, dangling entries or not. */
  lemma PlainLookupKept(a: Area, s: State, t: State, f: FileMap, ptrs: seq<seq<nat>>, from: nat, bi: nat)
    requires FileOk(a, s.blocks, s.free, f) && Clean(s.blocks, f) && s.nodes == f.nodes
    requires Partial(s, t, Doomed(Pc(a), f.nodes, from)) && PtrsCleared(a, f, ptrs, from)
    requires bi < from && bi < MaxBlocks(Pc(a)) && (bi < DIRECT ==> from >= DIRECT)
    ensures Pc(a) > 0 && |s.blocks| == |t.blocks| == a.count && PtrsShaped(f.ptrs)
    ensures PlainLookup(a, t.blocks, ptrs, bi) == PlainLookup(a, s.blocks, f.ptrs, bi)
  {
    hide Descend, Span, Clean, Links, Times, Ptr, Partial, Doomed, First, Words;
    var pc := Pc(a);
    PartialSize(s, t, Doomed(pc, f.nodes, from));
    var tree := TreeOf(pc, bi);
    if tree > 0 {
      RootFirst(pc, tree);
      assert RootWord(f, Root(tree)) == f.ptrs[tree][0];
      DescendKept(a, s, t, f, from, Root(tree), bi - Start(pc, tree));
    }
  }

  lemma RootFirst(pc: nat, tree: nat)
    ensures First(pc, Root(tree)) == Start(pc, tree)
  {
  }

  /** Cuts at 12 or below, or at the start of tree `t`, never straddle. */
  lemma CleanCuts(a: Area, nodes: map<Pos, nat>, from: nat, t: nat)
    requires DataOk(a) && Shape(a, nodes) && IsTree(t)
    requires from <= DIRECT || from == Start(Pc(a), t)
    ensures NoStraddle(a, nodes, from)
  {
    hide Start, Span, First, Shape;
    forall p | p in nodes
      ensures !Straddles(a, nodes, from, p)
    {
      CleanCut(a, nodes, from, t, p);
    }
  }

  lemma CleanCut(a: Area, nodes: map<Pos, nat>, from: nat, t: nat, p: Pos)
    requires DataOk(a) && Shape(a, nodes) && p in nodes && IsTree(t)
    requires from <= DIRECT || from == Start(Pc(a), t)
    ensures !Straddles(a, nodes, from, p)
  {
    hide Start, Span, First, Times;
    var pc := Pc(a);
    if p.height > 0 && First(pc, p) < from {
      InTree(pc, p);
      TreeOrder(pc, p.tree, t);
      forall i | 0 <= i < pc && Child(pc, p, i) in nodes
        ensures First(pc, Child(pc, p, i)) < from
      {
        InTree(pc, Child(pc, p, i));
      }
    }
  }

  lemma TreeOrder(pc: nat, u: nat, t: nat)
    requires IsTree(u) && IsTree(t)
    ensures DIRECT <= Start(pc, u)
    ensures u < t ==> Start(pc, u) + Span(pc, u) <= Start(pc, t)
    ensures t <= u ==> Start(pc, t) <= Start(pc, u)
  {
    StartMonotone(pc, 0, u);
    if u < t {
      StartMonotone(pc, u, t);
    } else if t < u {
      StartMonotone(pc, t, u);
    }
  }
}
