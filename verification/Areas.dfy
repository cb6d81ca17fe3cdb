/** Areas of equal-sized units on the device, and free lists stored inside the free units. */
module Areas {
  import opened Arith
  import opened Codec
  import opened Regions

  /** `size_of::<FreeList>()`: the pair next_ptr, size. */
  const FREE_LIST_SIZE := 16

  datatype Area = Area(base: nat, unit: nat, count: nat)

  predicate AreaOk(a: Area, size: nat) {
    a.unit >= FREE_LIST_SIZE && a.base > 0 && End(a) <= size < WORD_LIMIT
  }

  function Ptr(a: Area, n: nat): nat {
    a.base + Times(n, a.unit)
  }

  function End(a: Area): nat {
    Ptr(a, a.count)
  }

  lemma PtrInside(a: Area, n: nat, size: nat)
    requires AreaOk(a, size) && n < a.count
    ensures 0 < Ptr(a, n) && Ptr(a, n) + a.unit <= End(a) <= size
  {
    TimesApart(n, a.count, a.unit);
  }

  lemma PtrApart(a: Area, m: nat, n: nat)
    requires m < n
    ensures Ptr(a, m) + a.unit <= Ptr(a, n)
  {
    TimesApart(m, n, a.unit);
  }

  lemma PtrInjective(a: Area, m: nat, n: nat)
    requires a.unit > 0 && Ptr(a, m) == Ptr(a, n)
    ensures m == n
  {
    if m < n { PtrApart(a, m, n); } else if n < m { PtrApart(a, n, m); }
  }

  // ----- The device as units -----

  function Splice(d: seq<Byte>, p: nat, s: seq<Byte>): (r: seq<Byte>)
    requires p + |s| <= |d|
    ensures |r| == |d|
    ensures forall i :: 0 <= i < |r| ==> r[i] == if p <= i < p + |s| then s[i - p] else d[i]
  {
    d[..p] + s + d[p + |s|..]
  }

  lemma SpliceFront(u: seq<Byte>, h: seq<Byte>)
    requires |h| <= |u|
    ensures Splice(u, 0, h)[..|h|] == h
  {
  }

  /** A write in front of bytes just written does not touch them. */
  lemma SpliceBefore(d: seq<Byte>, p: nat, s: seq<Byte>, q: nat, t: seq<Byte>)
    requires p + |s| <= |d| && q + |t| <= p
    ensures Splice(Splice(d, p, s), q, t)[p..p + |s|] == s
  {
    var e := Splice(Splice(d, p, s), q, t);
    forall i | 0 <= i < |s|
      ensures e[p..p + |s|][i] == s[i]
    {
    }
  }

  /** A write into the front of a slice. */
  lemma SpliceInside(d: seq<Byte>, p: nat, n: nat, s: seq<Byte>)
    requires p + n <= |d| && |s| <= n
    ensures Splice(d, p, s)[p..p + n] == Splice(d[p..p + n], 0, s)
  {
    var e, t := Splice(d, p, s)[p..p + n], Splice(d[p..p + n], 0, s);
    forall i | 0 <= i < n
      ensures e[i] == t[i]
    {
    }
  }

  lemma SubSlice(s: seq<Byte>, p: nat, m: nat, off: nat, len: nat)
    requires p + m <= |s| && off + len <= m
    ensures s[p..p + m][off..off + len] == s[p + off..p + off + len]
  {
    var t, u := s[p..p + m][off..off + len], s[p + off..p + off + len];
    forall i | 0 <= i < len
      ensures t[i] == u[i]
    {
    }
  }

  function UnitAt(d: seq<Byte>, a: Area, n: nat): (u: seq<Byte>)
    requires AreaOk(a, |d|) && n < a.count
    ensures |u| == a.unit
  {
    PtrInside(a, n, |d|);
    d[Ptr(a, n)..Ptr(a, n) + a.unit]
  }

  function View(d: seq<Byte>, a: Area): (v: seq<seq<Byte>>)
    requires AreaOk(a, |d|)
    ensures |v| == a.count
  {
    seq(a.count, n requires 0 <= n < a.count => UnitAt(d, a, n))
  }

  /** Everything outside the area is the same in both devices. */
  predicate SameOutside(d: seq<Byte>, e: seq<Byte>, a: Area)
    requires AreaOk(a, |d|)
  {
    |e| == |d| && e[..a.base] == d[..a.base] && e[End(a)..] == d[End(a)..]
  }

  lemma UnitSplice(d: seq<Byte>, a: Area, n: nat, off: nat, s: seq<Byte>, m: nat)
    requires AreaOk(a, |d|) && n < a.count && off + |s| <= a.unit && m < a.count
    requires Ptr(a, n) + off + |s| <= |d|
    ensures UnitAt(Splice(d, Ptr(a, n) + off, s), a, m)
         == if m == n then Splice(UnitAt(d, a, n), off, s) else UnitAt(d, a, m)
  {
    hide Splice;
    PtrInside(a, m, |d|);
    if m < n {
      PtrApart(a, m, n);
    } else if n < m {
      PtrApart(a, n, m);
    }
  }

  /** Writing inside one unit changes that unit and nothing else. */
  lemma SpliceUnit(d: seq<Byte>, a: Area, n: nat, off: nat, s: seq<Byte>)
    requires AreaOk(a, |d|) && n < a.count && off + |s| <= a.unit
    ensures Ptr(a, n) + off + |s| <= |d|
    ensures SameOutside(d, Splice(d, Ptr(a, n) + off, s), a)
    ensures View(Splice(d, Ptr(a, n) + off, s), a) == View(d, a)[n := Splice(View(d, a)[n], off, s)]
  {
    hide Splice;
    PtrInside(a, n, |d|);
    var e := Splice(d, Ptr(a, n) + off, s);
    forall m | 0 <= m < a.count
      ensures View(e, a)[m] == View(d, a)[n := Splice(View(d, a)[n], off, s)][m]
    {
      UnitSplice(d, a, n, off, s, m);
    }
  }

  /** Writing outside the area leaves its units alone. */
  lemma SpliceOutside(d: seq<Byte>, a: Area, p: nat, s: seq<Byte>)
    requires AreaOk(a, |d|) && p + |s| <= |d|
    requires p + |s| <= a.base || End(a) <= p
    ensures View(Splice(d, p, s), a) == View(d, a)
  {
    hide Splice;
    var e := Splice(d, p, s);
    forall m | 0 <= m < a.count
      ensures UnitAt(e, a, m) == UnitAt(d, a, m)
    {
      PtrInside(a, m, |d|);
    }
  }

  // ----- Free lists inside free units -----

  function Header(next: nat, size: nat): (s: seq<Byte>)
    ensures |s| == FREE_LIST_SIZE
  {
    FromWords([next, size])
  }

  function HeadPtr(a: Area, rs: seq<Region>): nat {
    if rs == [] then 0 else Ptr(a, rs[0].first)
  }

  /** Each region starts with a header naming the next region and its own size in bytes. */
  predicate Chained(a: Area, v: seq<seq<Byte>>, rs: seq<Region>) {
    rs == [] || (
      && rs[0].first < |v|
      && FREE_LIST_SIZE <= |v[rs[0].first]|
      && v[rs[0].first][..FREE_LIST_SIZE] == Header(HeadPtr(a, rs[1..]), Times(rs[0].count, a.unit))
      && Chained(a, v, rs[1..]))
  }

  predicate UnitsSized(a: Area, v: seq<seq<Byte>>) {
    |v| == a.count && forall n :: 0 <= n < |v| ==> |v[n]| == a.unit
  }

  /** The free-list invariant: chain, regions, head pointer and use counter agree. */
  predicate ListOk(a: Area, v: seq<seq<Byte>>, head: nat, rs: seq<Region>, used: nat) {
    && UnitsSized(a, v)
    && RegionsOk(rs, a.count)
    && Chained(a, v, rs)
    && head == HeadPtr(a, rs)
    && Total(rs) + used == a.count
  }

  lemma {:induction false} ChainedFrame(a: Area, v: seq<seq<Byte>>, w: seq<seq<Byte>>, rs: seq<Region>, limit: nat)
    requires Chained(a, v, rs) && RegionsOk(rs, limit) && |v| == |w|
    requires forall n :: n in Units(rs) && n < |v| ==> v[n] == w[n]
    ensures Chained(a, w, rs)
  {
    if rs != [] {
      assert rs[0].first in Range(rs[0].first, rs[0].count);
      ChainedFrame(a, v, w, rs[1..], limit);
    }
  }

  /** The units after carving `k` units from the first region that fits. */
  function CarveView(a: Area, v: seq<seq<Byte>>, rs: seq<Region>, k: nat): (w: seq<seq<Byte>>)
    requires UnitsSized(a, v) && RegionsOk(rs, a.count) && HasFit(rs, k) && a.unit >= FREE_LIST_SIZE
    ensures |w| == |v|
  {
    var r := rs[0];
    if r.count > k then
      v[r.first + k := Splice(v[r.first + k], 0, Header(HeadPtr(a, rs[1..]), Times(r.count - k, a.unit)))]
    else if r.count == k then v
    else CarveView(a, v, rs[1..], k)
  }

  lemma {:induction false} CarveChained(a: Area, v: seq<seq<Byte>>, rs: seq<Region>, k: nat)
    requires UnitsSized(a, v) && RegionsOk(rs, a.count) && HasFit(rs, k) && a.unit >= FREE_LIST_SIZE && k > 0
    requires Chained(a, v, rs)
    ensures UnitsSized(a, CarveView(a, v, rs, k))
    ensures Chained(a, CarveView(a, v, rs, k), Carve(rs, k))
    ensures forall n :: 0 <= n < |v| && n !in Units(Carve(rs, k)) ==> CarveView(a, v, rs, k)[n] == v[n]
  {
    var r := rs[0];
    var w := CarveView(a, v, rs, k);
    if r.count > k {
      var rest := Carve(rs, k);
      assert rest[1..] == rs[1..];
      assert r.first + k in Range(r.first, r.count);
      ChainedFrame(a, v, w, rs[1..], a.count);
      assert r.first + k in Range(rest[0].first, rest[0].count);
    } else if r.count < k {
      CarveChained(a, v, rs[1..], k);
    }
  }

  lemma GiveChained(a: Area, v: seq<seq<Byte>>, rs: seq<Region>, n: nat)
    requires UnitsSized(a, v) && RegionsOk(rs, a.count) && a.unit >= FREE_LIST_SIZE
    requires Chained(a, v, rs) && n < a.count && n !in Units(rs)
    ensures Chained(a, v[n := Splice(v[n], 0, Header(HeadPtr(a, rs), a.unit))], Give(n, rs))
  {
    var w := v[n := Splice(v[n], 0, Header(HeadPtr(a, rs), a.unit))];
    ChainedFrame(a, v, w, rs, a.count);
    assert Give(n, rs)[1..] == rs;
  }

  /** A pointer found in a chain fits a 64-bit word. */
  lemma HeaderWords(a: Area, size: nat, rs: seq<Region>, r: Region)
    requires AreaOk(a, size) && RegionsOk(rs, a.count) && r.count <= a.count
    ensures Words(Header(HeadPtr(a, rs), Times(r.count, a.unit))) == [HeadPtr(a, rs), Times(r.count, a.unit)]
  {
    TimesSum(r.count, a.count - r.count, a.unit);
    if rs != [] {
      PtrInside(a, rs[0].first, size);
    }
    PtrBlockRoundTrip([HeadPtr(a, rs), Times(r.count, a.unit)]);
  }

  /** The outcome of a successful allocation of unit `n`. */
  ghost predicate Alloced(a: Area, blocks: seq<seq<Byte>>, free: seq<Region>, after: seq<seq<Byte>>, rest: seq<Region>,
                          n: nat) {
    && n in Units(free) && n < a.count && Units(rest) == Units(free) - {n} && UnitsSized(a, after)
    && |blocks| == a.count
    && forall m :: 0 <= m < a.count && m !in Units(rest) ==> after[m] == blocks[m]
  }
}
