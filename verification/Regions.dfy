/**
 The abstract free list: a chain of regions of consecutive free units.
 Units are inode slots or data blocks, numbered from 0 inside their own area.
 */
module Regions {

  datatype Region = Region(first: nat, count: nat)

  function Range(lo: nat, n: nat): (r: set<nat>)
    ensures forall k :: k in r <==> lo <= k < lo + n
  {
    if n == 0 then {} else Range(lo, n - 1) + {lo + n - 1}
  }

  function Units(rs: seq<Region>): set<nat> {
    if rs == [] then {} else Range(rs[0].first, rs[0].count) + Units(rs[1..])
  }

  function Total(rs: seq<Region>): nat {
    if rs == [] then 0 else rs[0].count + Total(rs[1..])
  }

  /** Non-empty regions inside `0..limit`, no unit in two of them. */
  predicate RegionsOk(rs: seq<Region>, limit: nat) {
    rs == [] || (
      && rs[0].count > 0
      && rs[0].first + rs[0].count <= limit
      && Range(rs[0].first, rs[0].count) !! Units(rs[1..])
      && RegionsOk(rs[1..], limit))
  }

  /**
   What first-fit carving of `k` units leaves, as `allocate_from_free` computes it: regions before the fit are dropped.
   */
  function Carve(rs: seq<Region>, k: nat): (r: seq<Region>) {
    if rs == [] then []
    else if rs[0].count > k then [Region(rs[0].first + k, rs[0].count - k)] + rs[1..]
    else if rs[0].count == k then rs[1..]
    else Carve(rs[1..], k)
  }

  /** The first region with room for `k` units. */
  predicate HasFit(rs: seq<Region>, k: nat) {
    rs != [] && (rs[0].count >= k || HasFit(rs[1..], k))
  }

  function FirstFit(rs: seq<Region>, k: nat): Region
    requires HasFit(rs, k)
  {
    if rs[0].count >= k then rs[0] else FirstFit(rs[1..], k)
  }

  /** Pushing one freed unit. */
  function Give(n: nat, rs: seq<Region>): seq<Region> {
    [Region(n, 1)] + rs
  }

  lemma {:induction false} RangeSize(lo: nat, n: nat)
    ensures |Range(lo, n)| == n
  {
    if n > 0 {
      RangeSize(lo, n - 1);
    }
  }

  lemma {:induction false} UnitsSize(rs: seq<Region>, limit: nat)
    requires RegionsOk(rs, limit)
    ensures |Units(rs)| == Total(rs)
    ensures forall n :: n in Units(rs) ==> n < limit
    ensures Total(rs) <= limit
  {
    if rs != [] {
      RangeSize(rs[0].first, rs[0].count);
      UnitsSize(rs[1..], limit);
    }
    SubsetSize(Units(rs), Range(0, limit));
    RangeSize(0, limit);
  }

  lemma {:induction false} SubsetSize<T>(s: set<T>, t: set<T>)
    requires s <= t
    ensures |s| <= |t|
  {
    if s != {} {
      var x :| x in s;
      SubsetSize(s - {x}, t - {x});
    }
  }

  /** Carving keeps a region list well formed and gives out free units only. */
  lemma {:induction false} CarveOk(rs: seq<Region>, k: nat, limit: nat)
    requires RegionsOk(rs, limit) && HasFit(rs, k) && k > 0
    ensures RegionsOk(Carve(rs, k), limit)
    ensures Units(Carve(rs, k)) <= Units(rs)
    ensures Range(FirstFit(rs, k).first, k) <= Units(rs) - Units(Carve(rs, k))
    ensures Total(Carve(rs, k)) + k <= Total(rs)
  {
    var r := rs[0];
    if r.count < k {
      CarveOk(rs[1..], k, limit);
    } else if r.count > k {
      assert Carve(rs, k)[1..] == rs[1..];
    }
  }

  /** The head region is large enough exactly when nothing but the carved units leaves the list. */
  lemma CarveKeepsAll(rs: seq<Region>, k: nat, limit: nat)
    requires RegionsOk(rs, limit) && HasFit(rs, k) && k > 0
    ensures rs[0].count >= k <==> Units(Carve(rs, k)) + Range(FirstFit(rs, k).first, k) == Units(rs)
    ensures rs[0].count >= k <==> Total(Carve(rs, k)) + k == Total(rs)
  {
    var r := rs[0];
    CarveOk(rs, k, limit);
    if r.count >= k {
      if r.count > k {
        assert Carve(rs, k)[1..] == rs[1..];
      }
      assert Units(Carve(rs, k)) + Range(r.first, k) == Units(rs);
    } else {
      CarveOk(rs[1..], k, limit);
      assert r.first in Range(r.first, r.count) && r.first !in Units(rs[1..]);
      assert r.first !in Units(Carve(rs, k)) + Range(FirstFit(rs, k).first, k);
    }
  }

  /** Single-unit allocation never reaches past the head. */
  lemma HeadFits(rs: seq<Region>, limit: nat)
    requires RegionsOk(rs, limit) && rs != []
    ensures HasFit(rs, 1) && FirstFit(rs, 1) == rs[0]
    ensures Units(Carve(rs, 1)) == Units(rs) - {rs[0].first}
    ensures rs[0].first in Units(rs)
    ensures Total(Carve(rs, 1)) + 1 == Total(rs)
    ensures RegionsOk(Carve(rs, 1), limit)
  {
    CarveOk(rs, 1, limit);
    CarveKeepsAll(rs, 1, limit);
    assert Range(rs[0].first, 1) == {rs[0].first};
  }

  lemma GiveOk(n: nat, rs: seq<Region>, limit: nat)
    requires RegionsOk(rs, limit) && n < limit && n !in Units(rs)
    ensures RegionsOk(Give(n, rs), limit)
    ensures Units(Give(n, rs)) == Units(rs) + {n}
    ensures Total(Give(n, rs)) == Total(rs) + 1
  {
    assert Give(n, rs)[1..] == rs;
    assert Range(n, 1) == {n};
  }

  /** Freeing a unit and allocating again returns the same unit and restores the same chain. */
  lemma GiveThenCarve(n: nat, rs: seq<Region>)
    ensures HasFit(Give(n, rs), 1) && FirstFit(Give(n, rs), 1) == Region(n, 1)
    ensures Carve(Give(n, rs), 1) == rs
  {
    assert Give(n, rs)[1..] == rs;
  }

  // ----- Whole runs -----

  datatype Request = Alloc | Free(n: nat)

  /** The chain next to the plain set of units handed out and not yet returned. */
  datatype Pool = Pool(chain: seq<Region>, live: set<nat>)

  function Step(p: Pool, q: Request): Pool {
    match q
    case Alloc => if p.chain == [] then p else Pool(Carve(p.chain, 1), p.live + {p.chain[0].first})
    case Free(n) => Pool(Give(n, p.chain), p.live - {n})
  }

  /** Only live units are freed. */
  predicate Legal(p: Pool, run: seq<Request>)
    decreases run
  {
    run == [] || (
      && (run[0].Free? ==> run[0].n in p.live)
      && Legal(Step(p, run[0]), run[1..]))
  }

  function Run(p: Pool, run: seq<Request>): Pool
    decreases run
  {
    if run == [] then p else Run(Step(p, run[0]), run[1..])
  }

  predicate PoolOk(p: Pool, limit: nat) {
    && RegionsOk(p.chain, limit)
    && Units(p.chain) !! p.live
    && Units(p.chain) + p.live == Range(0, limit)
    && Total(p.chain) + |p.live| == limit
  }

  lemma StepOk(p: Pool, q: Request, limit: nat)
    requires PoolOk(p, limit)
    requires q.Free? ==> q.n in p.live
    ensures PoolOk(Step(p, q), limit)
  {
    hide Carve, RegionsOk, Range, Units, Total, Give;
    match q
    case Alloc =>
      if p.chain != [] {
        HeadFits(p.chain, limit);
        MoveOut(Units(p.chain), p.live, Range(0, limit), p.chain[0].first);
      }
    case Free(n) =>
      MoveOut(p.live, Units(p.chain), Range(0, limit), n);
      GiveOk(n, p.chain, limit);
  }

  /** Allocation fails only when every unit is live, and never hands out a live unit. */
  lemma AllocComplete(p: Pool, limit: nat)
    requires PoolOk(p, limit)
    ensures Step(p, Alloc) == p <==> |p.live| == limit
    ensures |p.live| < limit ==> exists n :: n !in p.live && n < limit && Step(p, Alloc).live == p.live + {n}
  {
    if p.chain != [] {
      var n := p.chain[0].first;
      assert n in Range(p.chain[0].first, p.chain[0].count) && n in Units(p.chain);
      assert n in Range(0, limit);
      assert Step(p, Alloc).live == p.live + {n};
    }
  }

  lemma MoveOut(s: set<nat>, t: set<nat>, whole: set<nat>, x: nat)
    requires s !! t && s + t == whole && x in s
    ensures (s - {x}) !! (t + {x}) && (s - {x}) + (t + {x}) == whole && (t + {x}) + (s - {x}) == whole
    ensures |t + {x}| == |t| + 1 && |s - {x}| == |s| - 1
    ensures x in whole
  {
  }

  /** From one region covering the whole area, every run keeps chain and live units a partition of it. */
  lemma {:induction false} RunOk(p: Pool, run: seq<Request>, limit: nat)
    requires PoolOk(p, limit) && Legal(p, run)
    ensures PoolOk(Run(p, run), limit)
    decreases run
  {
    if run != [] {
      StepOk(p, run[0], limit);
      RunOk(Step(p, run[0]), run[1..], limit);
    }
  }

  lemma FreshPoolOk(limit: nat)
    requires limit > 0
    ensures PoolOk(Pool([Region(0, limit)], {}), limit)
  {
    RangeSize(0, limit);
    assert Units([Region(0, limit)][1..]) == {};
  }
}
