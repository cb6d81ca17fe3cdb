/**
 The buffer of 8 KiB that `DkDir::flush` puts before its file, a `BufWriter`: it passes bytes on when the next piece
 does not fit, and the rest when it is dropped, where an error has nobody to go to.
 */
module Buffer {
  import opened Codec
  import opened Regions
  import opened Areas
  import opened Positions
  import opened BlockMap
  import opened Frames
  import opened Contents
  import opened Need
  import opened Results
  import opened DonkeyFs
  import opened DkFiles

  const CAPACITY := 8192

  /** How far the bytes given to the buffer have got: those that have left it, and those it holds. */
  datatype Flow = Flow(sent: nat, held: nat)

  /**
   The flow after one more piece of `len` bytes, if the device never gets full: what is held leaves when the piece does
   not fit beside it, and a piece as large as the buffer leaves at once, block by block.
   */
  function Take(unit: nat, f: Flow, len: nat): (g: Flow)
    requires unit > 0 && f.held <= CAPACITY
    ensures g.sent + g.held == f.sent + f.held + len && g.sent >= f.sent && g.held <= CAPACITY
    decreases len
  {
    if len == 0 then f
    else
      var g := if f.held + len > CAPACITY then Flow(f.sent + f.held, 0) else f;
      if len < CAPACITY then Flow(g.sent, g.held + len)
      else
        var n := Min(unit - BlockOfPos(g.sent, unit).1, len);
        Take(unit, Flow(g.sent + n, 0), len - n)
  }

  /** As long as everything fits the buffer nothing leaves it. */
  lemma TakeFits(unit: nat, f: Flow, len: nat)
    requires unit > 0 && f.held + len <= CAPACITY && len < CAPACITY
    ensures Take(unit, f, len) == Flow(f.sent, f.held + len)
  {
  }

  /**
   Of `put`, all but the buffered end has been written to the file since state `s`, and nothing else; nodes were added
   for the first `reach` bytes only.
   */
  ghost predicate Behind(a: Area, s: State, t: State, pos: nat, put: seq<Byte>, buf: seq<Byte>, reach: nat) {
    && Pc(a) > 0 && SizeOk(a, reach) && pos + |buf| == |put| <= reach && buf == put[pos..]
    && Wrote(a, s, t, 0, put[..pos]) && Grown(s.nodes, t.nodes, Needed(a, 0, reach))
  }

  lemma BehindStart(a: Area, s: State)
    requires Pc(a) > 0 && SizeOk(a, 0)
    ensures Behind(a, s, s, 0, [], [], 0)
  {
    hide Wrote, Grown, Needed;
    WroteNothing(a, s, 0);
    GrownSame(s.nodes, Needed(a, 0, 0));
  }

  /** Sending the first `done` bytes of the buffer. */
  lemma BehindSent(a: Area, s: State, t: State, u: State, pos: nat, put: seq<Byte>, buf: seq<Byte>, reach: nat,
                   done: nat)
    requires Behind(a, s, t, pos, put, buf, reach) && done <= |buf| && Wrote(a, t, u, pos, buf[..done])
    requires SizeOk(a, pos + |buf|) && Grown(t.nodes, u.nodes, Needed(a, pos, |buf|))
    ensures Behind(a, s, u, pos + done, put, buf[done..], reach)
  {
    hide Wrote, Grown, Needed, SizeOk;
    assert |put[..pos]| == pos;
    WroteOn(a, s, t, u, 0, put[..pos], buf[..done]);
    assert put[..pos] + buf[..done] == put[..pos + done];
    NeedTail(a, pos, |buf|);
    NeedGrows(a, 0, |put|, reach);
    GrownOn(s.nodes, t.nodes, u.nodes, Needed(a, 0, reach), Needed(a, pos, |buf|));
  }

  /** Buffering more. */
  lemma BehindPut(a: Area, s: State, t: State, pos: nat, put: seq<Byte>, buf: seq<Byte>, reach: nat, piece: seq<Byte>)
    requires Behind(a, s, t, pos, put, buf, reach) && reach <= |put| + |piece| && SizeOk(a, |put| + |piece|)
    ensures Behind(a, s, t, pos, put + piece, buf + piece, |put| + |piece|)
  {
    hide Wrote, Grown, Needed, SizeOk;
    assert (put + piece)[..pos] == put[..pos];
    NeedGrows(a, 0, reach, |put| + |piece|);
    GrownMore(s.nodes, t.nodes, Needed(a, 0, reach), Needed(a, 0, |put| + |piece|));
  }

  /** A failed attempt to write the byte after `put`. */
  lemma BehindFailed(a: Area, s: State, t: State, u: State, pos: nat, put: seq<Byte>, reach: nat)
    requires Behind(a, s, t, pos, put, [], reach) && reach <= |put| + 1 && SizeOk(a, |put| + 1)
    requires Wrote(a, t, u, pos, []) && BlockOfPos(pos, a.unit).0 < MaxBlocks(Pc(a))
    requires Grown(t.nodes, u.nodes, PathNodes(Pc(a), BlockOfPos(pos, a.unit).0))
    ensures Behind(a, s, u, pos, put, [], |put| + 1)
  {
    hide Wrote, Grown, Needed, SizeOk, PathNodes, MaxBlocks, BlockOfPos;
    assert put[..pos] + [] == put[..pos] && |put[..pos]| == pos;
    WroteOn(a, s, t, u, 0, put[..pos], []);
    NeedGrows(a, 0, reach, |put| + 1);
    ByteNeeds(a, 0, |put| + 1, pos);
    GrownMore(s.nodes, t.nodes, Needed(a, 0, reach), Needed(a, 0, |put| + 1));
    GrownOn(s.nodes, t.nodes, u.nodes, Needed(a, 0, |put| + 1), PathNodes(Pc(a), BlockOfPos(pos, a.unit).0));
  }

  /** A successful write of `piece` past an empty buffer. */
  lemma BehindThrough(a: Area, s: State, t: State, u: State, pos: nat, put: seq<Byte>, reach: nat, piece: seq<Byte>)
    requires Behind(a, s, t, pos, put, [], reach) && reach <= |put| + |piece| && piece != []
    requires SizeOk(a, |put| + |piece|)
    requires Wrote(a, t, u, pos, piece) && BlockOfPos(pos, a.unit).0 < MaxBlocks(Pc(a))
    requires Grown(t.nodes, u.nodes, PathNodes(Pc(a), BlockOfPos(pos, a.unit).0))
    ensures Behind(a, s, u, pos + |piece|, put + piece, [], |put| + |piece|)
  {
    hide Wrote, Grown, Needed, SizeOk, PathNodes, MaxBlocks, BlockOfPos;
    BehindPut(a, s, t, pos, put, [], reach, piece);
    assert [] + piece == piece && piece[..|piece|] == piece && piece[|piece|..] == [];
    ByteNeeds(a, pos, |piece|, pos);
    GrownMore(t.nodes, u.nodes, PathNodes(Pc(a), BlockOfPos(pos, a.unit).0), Needed(a, pos, |piece|));
    BehindSent(a, s, t, u, pos, put + piece, piece, |put| + |piece|, |piece|);
  }

  lemma GrownMore(before: map<Pos, nat>, after: map<Pos, nat>, allowed: set<Pos>, more: set<Pos>)
    requires Grown(before, after, allowed) && allowed <= more
    ensures Grown(before, after, more)
  {
  }

  class BufWriter {
    const file: DkFile
    var buf: seq<Byte>
    /** Everything written to the buffer so far, how far the file was asked to grow, and the state at the start. */
    ghost var put: seq<Byte>
    ghost var reach: nat
    ghost const start: State

    ghost predicate Valid(dk: Donkey)
      reads this, file, dk
    {
      && file.Valid(dk) && Behind(dk.data, start, file.St(dk), file.pos, put, buf, reach) && |buf| <= CAPACITY
      && (file.pos > 0 ==> file.dirty)
    }

    /** How far the bytes have got. */
    ghost function Level(): Flow
      reads this, file
    {
      Flow(file.pos, |buf|)
    }

    /** The first `len` bytes given to the buffer needed more blocks than were free at the start. */
    ghost predicate TooMany(dk: Donkey, len: nat)
      reads this, dk
    {
      && Pc(dk.data) > 0 && SizeOk(dk.data, len)
      && Missing(dk.data, start.nodes, 0, len) > dk.data.count - start.used
    }

    constructor (file: DkFile, dk: Donkey)
      requires file.Valid(dk) && file.pos == 0
      ensures this.file == file && buf == put == [] && reach == 0 && start == file.St(dk) && Valid(dk)
    {
      hide Behind, DkFile.Valid, SizeOk, SystemOk;
      file.Ready(dk);
      BehindStart(dk.data, file.St(dk));
      this.file, this.buf, this.put, this.reach, this.start := file, [], [], 0, file.St(dk);
    }

    /** `flush_buf`: on an error the bytes that were not written stay in the buffer. */
    method FlushBuf(dk: Donkey) returns (r: DkResult<()>)
      requires Valid(dk)
      modifies this`buf, file`inode, file`pos, file`dirty, file`cache, file`at, file`nodes
      modifies dk`dev, dk`sb, dk`blocks, dk`freeBlocks
      ensures Valid(dk) && file.pos >= old(file.pos)
      ensures r.Ok? <==> buf == []
      ensures r.Err? ==> r.error == Exhausted && file.Stuck(dk)
    {
      hide DkFile.Valid, Wrote, Grown, Needed, SizeOk, DkFile.Stuck, GrewInside;
      ghost var s := file.St(dk);
      var before := file.pos;
      SmallerSize(dk.data, |put|, reach);
      ghost var done;
      r, done := file.WriteAll(dk, buf);
      BehindSent(dk.data, start, s, file.St(dk), before, put, buf, reach, done);
      buf := buf[file.pos - before..];
    }

    /**
     `write`: the buffer is flushed if the piece does not fit it; a piece as large as the buffer goes to the file at
     once, as far as the current block reaches.
     */
    method Write(dk: Donkey, piece: seq<Byte>) returns (r: DkResult<nat>)
      requires Valid(dk) && piece != [] && reach == |put| && SizeOk(dk.data, |put| + |piece|)
      modifies this`buf, this`put, this`reach, file`inode, file`pos, file`dirty, file`cache, file`at, file`nodes
      modifies dk`dev, dk`sb, dk`blocks, dk`freeBlocks
      ensures Valid(dk) && dk.data.unit > 0
      ensures r.Ok? ==> 0 < r.value <= |piece| && put == old(put) + piece[..r.value] && reach == |put|
      ensures r.Ok? ==> Take(dk.data.unit, Level(), |piece| - r.value) == Take(dk.data.unit, old(Level()), |piece|)
      ensures r.Err? ==> r.error == Exhausted && file.Stuck(dk) && put == old(put) && reach <= |put| + 1
      ensures r.Err? ==> |put| + |piece| >= CAPACITY && TooMany(dk, Take(dk.data.unit, old(Level()), |piece|).sent)
    {
      hide Behind, DkFile.Valid, SizeOk, DkFile.Stuck, TooMany, BlockOfPos, Take;
      ghost var level := Level();
      BufferSize(dk);
      if |buf| + |piece| > CAPACITY {
        TakeFlushed(dk.data.unit, level, |piece|);
        var f := FlushBuf(dk);
        BufferSize(dk);
        if f.Err? {
          HeldLost(dk, level, |piece|);
          return Err(f.error);
        }
      }
      if |piece| >= CAPACITY {
        r := WriteThrough(dk, piece);
      } else {
        BehindPut(dk.data, start, file.St(dk), file.pos, put, buf, reach, piece);
        TakeFits(dk.data.unit, Level(), |piece|);
        buf, put, reach := buf + piece, put + piece, |put| + |piece|;
        assert piece[..|piece|] == piece;
        TakeNothing(dk.data.unit, Level());
        return Ok(|piece|);
      }
    }

    /** What was held did not get through, to make room for `len` more bytes. */
    lemma HeldLost(dk: Donkey, f: Flow, len: nat)
      requires Valid(dk) && file.Stuck(dk) && buf != [] && reach == |put| && SizeOk(dk.data, |put| + len)
      requires dk.data.unit > 0 && f.held <= CAPACITY < f.held + len && f.sent + f.held == |put|
      ensures TooMany(dk, Take(dk.data.unit, f, len).sent)
    {
      hide Behind, DkFile.Valid, SizeOk, DkFile.Stuck, TooMany;
      BufferSize(dk);
      PutLost(dk);
      SmallerSize(dk.data, Take(dk.data.unit, f, len).sent, |put| + len);
      TakeFlushed(dk.data.unit, f, len);
      MoreLost(dk, |put|, Take(dk.data.unit, f, len).sent);
    }

    lemma BufferSize(dk: Donkey)
      requires Valid(dk)
      ensures file.pos + |buf| == |put| && |buf| <= CAPACITY && file.Valid(dk) && Pc(dk.data) > 0 && dk.data.unit > 0
      ensures file.pos > 0 ==> file.dirty
    {
      hide DkFile.Valid, Wrote, Grown, Needed, SizeOk;
    }

    /** A large piece, once the buffer is empty. */
    method WriteThrough(dk: Donkey, piece: seq<Byte>) returns (r: DkResult<nat>)
      requires Valid(dk) && |piece| >= CAPACITY && reach == |put| && SizeOk(dk.data, |put| + |piece|) && buf == []
      modifies this`put, this`reach, file`inode, file`pos, file`dirty, file`cache, file`at, file`nodes
      modifies dk`dev, dk`sb, dk`blocks, dk`freeBlocks
      ensures Valid(dk) && dk.data.unit > 0
      ensures r.Ok? ==> 0 < r.value <= |piece| && put == old(put) + piece[..r.value] && reach == |put|
      ensures r.Ok? ==> Take(dk.data.unit, Level(), |piece| - r.value) == Take(dk.data.unit, old(Level()), |piece|)
      ensures r.Err? ==> r.error == Exhausted && file.Stuck(dk) && put == old(put) && reach <= |put| + 1
      ensures r.Err? ==> TooMany(dk, Take(dk.data.unit, old(Level()), |piece|).sent)
    {
      hide Behind, DkFile.Valid, Wrote, Grown, SizeOk, DkFile.Stuck, GrewInside, PathNodes, BlockOfPos, MaxBlocks,
        TooMany;
      ghost var s, before, level := file.St(dk), file.pos, Level();
      BehindPos(dk.data, start, s, before, put, reach);
      BufferSize(dk);
      r := file.DkWrite(dk, piece);
      if r.Ok? {
        SmallerSize(dk.data, |put| + r.value, |put| + |piece|);
        BehindThrough(dk.data, start, s, file.St(dk), before, put, reach, piece[..r.value]);
        put, reach := put + piece[..r.value], |put| + r.value;
      } else {
        SmallerSize(dk.data, |put| + 1, |put| + |piece|);
        BehindFailed(dk.data, start, s, file.St(dk), before, put, reach);
        reach := |put| + 1;
        NextLost(dk);
        FirstLeaves(dk.data.unit, level, |piece|);
        SmallerSize(dk.data, Take(dk.data.unit, level, |piece|).sent, |put| + |piece|);
        MoreLost(dk, |put| + 1, Take(dk.data.unit, level, |piece|).sent);
      }
    }

    /** `write_all`. */
    method WriteAll(dk: Donkey, piece: seq<Byte>) returns (r: DkResult<()>)
      requires Valid(dk) && reach == |put| && SizeOk(dk.data, |put| + |piece|)
      modifies this`buf, this`put, this`reach, file`inode, file`pos, file`dirty, file`cache, file`at, file`nodes
      modifies dk`dev, dk`sb, dk`blocks, dk`freeBlocks
      ensures Valid(dk) && dk.data.unit > 0
      ensures r.Ok? ==> put == old(put) + piece && reach == |put|
      ensures r.Ok? ==> Level() == Take(dk.data.unit, old(Level()), |piece|)
      ensures r.Err? ==> r.error == Exhausted && file.Stuck(dk) && |put| < |old(put)| + |piece| && reach <= |put| + 1
      ensures r.Err? ==> put == (old(put) + piece)[..|put|] && |old(put)| + |piece| >= CAPACITY
      ensures r.Err? ==> TooMany(dk, Take(dk.data.unit, old(Level()), |piece|).sent)
    {
      hide Behind, DkFile.Valid, SizeOk, DkFile.Stuck, TooMany, Take;
      ghost var first, level := put, Level();
      BufferSize(dk);
      TakeNothing(dk.data.unit, level);
      var k: nat := 0;
      while k < |piece|
        invariant k <= |piece| && Valid(dk) && put == first + piece[..k] && reach == |put| && |buf| <= CAPACITY
        invariant Take(dk.data.unit, Level(), |piece| - k) == Take(dk.data.unit, level, |piece|)
        decreases |piece| - k
      {
        var n := Write(dk, piece[k..]);
        if n.Err? {
          assert (first + piece)[..|put|] == put;
          return Err(n.error);
        }
        BufferSize(dk);
        assert piece[..k] + piece[k..][..n.value] == piece[..k + n.value];
        k := k + n.value;
      }
      assert piece[..k] == piece;
      TakeNothing(dk.data.unit, Level());
      return Ok(());
    }

    // ----- A full device -----

    /** A forced flush left something behind. */
    lemma PutLost(dk: Donkey)
      requires Valid(dk) && file.Stuck(dk) && file.pos < |put| && reach == |put|
      ensures TooMany(dk, |put|)
    {
      hide SizeOk, Grown, Needed, Missing, DkFile.Stuck, DkFile.Valid, Wrote;
      FailedWrite(file, dk, start, 0, put, file.pos);
    }

    /** The byte after `put` could not be written. */
    lemma NextLost(dk: Donkey)
      requires Valid(dk) && file.Stuck(dk) && buf == [] && reach == |put| + 1
      ensures TooMany(dk, |put| + 1)
    {
      hide SizeOk, Grown, Needed, Missing, DkFile.Stuck, DkFile.Valid, Wrote;
      var next := put + [0];
      assert put[..file.pos] == put == next[..file.pos];
      FailedWrite(file, dk, start, 0, next, file.pos);
    }

    /** A longer stream needs no fewer blocks. */
    lemma MoreLost(dk: Donkey, len: nat, more: nat)
      requires TooMany(dk, len) && len <= more && SizeOk(dk.data, more)
      ensures TooMany(dk, more)
    {
      hide SizeOk, Needed;
      NeedGrows(dk.data, 0, len, more);
      SubsetSize(Needed(dk.data, 0, len) - start.nodes.Keys, Needed(dk.data, 0, more) - start.nodes.Keys);
    }
  }

  lemma TakeNothing(unit: nat, f: Flow)
    requires unit > 0 && f.held <= CAPACITY
    ensures Take(unit, f, 0) == f
  {
  }

  /** What is held leaves when the next piece does not fit beside it. */
  lemma TakeFlushed(unit: nat, f: Flow, len: nat)
    requires unit > 0 && f.held <= CAPACITY && f.held + len > CAPACITY && len > 0
    ensures Take(unit, f, len) == Take(unit, Flow(f.sent + f.held, 0), len)
  {
  }

  /** A piece as large as the buffer leaves at least its first byte. */
  lemma FirstLeaves(unit: nat, f: Flow, len: nat)
    requires unit > 0 && f.held == 0 && len >= CAPACITY
    ensures Take(unit, f, len).sent > f.sent
  {
  }

  lemma BehindPos(a: Area, s: State, t: State, pos: nat, put: seq<Byte>, reach: nat)
    requires Behind(a, s, t, pos, put, [], reach)
    ensures pos == |put| && Pc(a) > 0
  {
    hide Wrote, Grown, Needed, SizeOk;
  }
}
