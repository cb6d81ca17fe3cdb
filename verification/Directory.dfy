/** Directories (file.rs): the entry stream, and `DkDir` with its flush and read. */
module Directory {
  import opened Arith
  import opened Codec
  import opened Areas
  import opened Layout
  import opened Attributes
  import opened Positions
  import opened BlockMap
  import opened Frames
  import opened Contents
  import opened Need
  import opened Results
  import opened DonkeyFs
  import opened DkFiles
  import opened Buffer
  import opened Links

  /** The number that ends a directory. */
  const END_INO := ROOT_INODE - 1

  function EntryBytes(name: Name, ino: nat): seq<Byte> {
    Encode(ino, WORD) + (Encode(|name|, WORD) + name)
  }

  /** Every name of `order` is that of an entry. */
  predicate Named(order: seq<Name>, entries: map<Name, nat>) {
    forall n :: n in order ==> n in entries
  }

  /** The stream `flush` writes for entries visited in the given order. */
  function Stream(order: seq<Name>, entries: map<Name, nat>): seq<Byte>
    requires Named(order, entries)
  {
    if order == [] then Encode(END_INO, WORD)
    else EntryBytes(order[0], entries[order[0]]) + Stream(order[1..], entries)
  }

  /** Numbers that stand for inodes, and names that have a 64-bit length. */
  predicate EntriesOk(entries: map<Name, nat>) {
    forall n :: n in entries ==> ROOT_INODE <= entries[n] < WORD_LIMIT && |n| < WORD_LIMIT
  }

  /** `order` lists every entry exactly once. */
  ghost predicate Enumerates(order: seq<Name>, names: set<Name>) {
    && (forall n :: n in order <==> n in names)
    && forall i, j :: 0 <= i < j < |order| ==> order[i] != order[j]
  }

  /** One entry at the front of a stream: its name, its number and what follows. */
  datatype Item = End | Entry(name: Name, ino: nat, rest: seq<Byte>)

  function ParseItem(s: seq<Byte>): (r: DkResult<Item>)
    ensures r.Ok? && r.value.Entry? ==> |r.value.rest| < |s|
  {
    if |s| < WORD then Err(Io)
    else
      var ino := Decode(s[..WORD]);
      if ino >= ROOT_INODE then
        if |s| < 2 * WORD then Err(Io)
        else
          var len := Decode(s[WORD..2 * WORD]);
          if |s| < 2 * WORD + len then Err(Io)
          else Ok(Entry(s[2 * WORD..2 * WORD + len], ino, s[2 * WORD + len..]))
      else if ino == END_INO then Ok(End)
      else Err(Corrupted)
  }

  /** The loop of `read_fully` as a function of the bytes it reads. */
  function Parse(s: seq<Byte>): DkResult<map<Name, nat>>
    decreases |s|
  {
    var item := ParseItem(s);
    if item.Err? then Err(item.error)
    else if item.value.End? then Ok(map[])
    else
      var rest := Parse(item.value.rest);
      if rest.Err? then rest else Ok(map[item.value.name := item.value.ino] + rest.value)
  }

  lemma ParseEntry(name: Name, ino: nat, tail: seq<Byte>)
    requires ROOT_INODE <= ino < WORD_LIMIT && |name| < WORD_LIMIT
    ensures ParseItem(EntryBytes(name, ino) + tail) == Ok(Entry(name, ino, tail))
  {
    hide Encode, Decode;
    WordRange();
    DecodeEncode(ino, WORD);
    DecodeEncode(|name|, WORD);
    var s := EntryBytes(name, ino) + tail;
    assert s == Encode(ino, WORD) + (Encode(|name|, WORD) + (name + tail));
    assert s[..WORD] == Encode(ino, WORD);
    assert s[WORD..] == Encode(|name|, WORD) + (name + tail);
    assert s[WORD..2 * WORD] == s[WORD..][..WORD] == Encode(|name|, WORD);
    assert s[2 * WORD..] == s[WORD..][WORD..] == name + tail;
    assert s[2 * WORD..2 * WORD + |name|] == s[2 * WORD..][..|name|] == name;
    assert s[2 * WORD + |name|..] == s[2 * WORD..][|name|..] == tail;
  }

  lemma ParseEnd(tail: seq<Byte>)
    ensures Parse(Encode(114_513, WORD) + tail) == Ok(map[])
  {
    hide Encode, Decode;
    WordRange();
    DecodeEncode(END_INO, WORD);
    assert (Encode(END_INO, WORD) + tail)[..WORD] == Encode(END_INO, WORD);
  }

  function Restrict(order: seq<Name>, entries: map<Name, nat>): map<Name, nat> {
    map n | n in entries && n in order :: entries[n]
  }

  /** Reading a flushed directory gives its entries back, whatever older bytes follow the end mark. */
  lemma {:induction false} StreamRoundTrip(order: seq<Name>, entries: map<Name, nat>, tail: seq<Byte>)
    requires EntriesOk(entries) && Named(order, entries)
    ensures Parse(Stream(order, entries) + tail) == Ok(Restrict(order, entries))
  {
    hide EntryBytes, ParseItem, Encode;
    if order == [] {
      ParseEnd(tail);
      assert Restrict([], entries) == map[];
    } else {
      var name, rest := order[0], order[1..];
      var s := Stream(rest, entries) + tail;
      assert Stream(order, entries) + tail == EntryBytes(name, entries[name]) + s;
      ParseEntry(name, entries[name], s);
      StreamRoundTrip(rest, entries, tail);
      assert Restrict(order, entries) == map[name := entries[name]] + Restrict(rest, entries);
    }
  }

  /** An entry cut short. */
  lemma CutEntry(name: Name, ino: nat, n: nat)
    requires ROOT_INODE <= ino < WORD_LIMIT && |name| < WORD_LIMIT && n < |EntryBytes(name, ino)|
    ensures ParseItem(EntryBytes(name, ino)[..n]) == Err(Io)
  {
    hide Encode, Decode;
    WordRange();
    DecodeEncode(ino, WORD);
    DecodeEncode(|name|, WORD);
    var s := EntryBytes(name, ino)[..n];
    if n >= WORD {
      assert s[..WORD] == Encode(ino, WORD);
    }
    if n >= 2 * WORD {
      assert s[WORD..2 * WORD] == Encode(|name|, WORD);
    }
  }

  /** A stream that is cut short has no end mark, and reading it fails. */
  lemma {:induction false} CutStream(order: seq<Name>, entries: map<Name, nat>, n: nat)
    requires EntriesOk(entries) && Named(order, entries) && n < |Stream(order, entries)|
    ensures Parse(Stream(order, entries)[..n]) == Err(Io)
  {
    hide EntryBytes, ParseItem, Encode;
    if order == [] {
      CutEnd(n);
    } else {
      var name, rest := order[0], Stream(order[1..], entries);
      var entry := EntryBytes(name, entries[name]);
      var s := Stream(order, entries)[..n];
      if n < |entry| {
        assert s == entry[..n];
        CutEntry(name, entries[name], n);
      } else {
        assert s == entry + rest[..n - |entry|];
        ParseEntry(name, entries[name], rest[..n - |entry|]);
        CutStream(order[1..], entries, n - |entry|);
      }
    }
  }

  lemma CutEnd(n: nat)
    requires n < WORD
    ensures Parse(Encode(END_INO, WORD)[..n]) == Err(Io)
  {
  }

  /** After any entries a number below the end mark is refused. */
  lemma {:induction false} BadNumber(order: seq<Name>, entries: map<Name, nat>, v: nat, tail: seq<Byte>)
    requires EntriesOk(entries) && Named(order, entries) && v < 114_513
    ensures Parse(Entries(order, entries) + (Encode(v, WORD) + tail)) == Err(Corrupted)
  {
    hide EntryBytes, ParseItem, Encode, Entries;
    var bad := Encode(v, WORD) + tail;
    if order == [] {
      EntriesNone(entries);
      assert [] + bad == bad;
      BadItem(v, tail);
    } else {
      var name, rest := order[0], Entries(order[1..], entries) + bad;
      EntriesFront(order, entries);
      assert Entries(order, entries) + bad == EntryBytes(name, entries[name]) + rest;
      ParseEntry(name, entries[name], rest);
      BadNumber(order[1..], entries, v, tail);
    }
  }

  lemma BadItem(v: nat, tail: seq<Byte>)
    requires v < END_INO
    ensures ParseItem(Encode(v, WORD) + tail) == Err(Corrupted)
  {
    hide Encode, Decode;
    WordRange();
    DecodeEncode(v, WORD);
    assert (Encode(v, WORD) + tail)[..WORD] == Encode(v, WORD);
  }

  /** A file that ends within a stream: reading all of it fails. */
  lemma CutReadBack(a: Area, blocks: seq<seq<Byte>>, nodes: map<Pos, nat>, order: seq<Name>, entries: map<Name, nat>,
                    n: nat, r: seq<Byte>)
    requires EntriesOk(entries) && Named(order, entries) && n < |Stream(order, entries)|
    requires forall i :: 0 <= i < n ==> ByteAt(a, blocks, nodes, i) == Some(Stream(order, entries)[i])
    requires IsRead(a, blocks, nodes, n, 0, n, r)
    ensures Parse(r) == Err(Io)
  {
    hide Parse, Stream, EntriesOk, Named, ByteAt;
    var stream := Stream(order, entries);
    var k: nat, zero: nat := |r|, 0;
    assert k < n ==> HasByte(a, blocks, nodes, zero, stream, k);
    forall i | 0 <= i < n
      ensures r[i] == stream[i]
    {
      assert ByteAt(a, blocks, nodes, 0 + i) == Some(r[i]);
    }
    assert r == stream[..n];
    CutStream(order, entries, n);
  }

  /**
   After `flush` has written the stream at position 0, a read of the whole file parses to the same entries,
   although the file may be longer than the stream.
   */
  lemma DirectoryReadBack(a: Area, s: State, t: State, order: seq<Name>, entries: map<Name, nat>, r: seq<Byte>)
    requires EntriesOk(entries) && Enumerates(order, entries.Keys)
    requires Wrote(a, s, t, 0, Stream(order, entries))
    requires IsRead(a, t.blocks, t.nodes, t.inode.size, 0, t.inode.size, r)
    ensures Parse(r) == Ok(entries)
  {
    hide Parse, Stream, Wrote, IsRead, EntriesOk, Enumerates, Restrict;
    EveryName(order, entries);
    var stream := Stream(order, entries);
    StreamNotEmpty(order, entries);
    PrefixRead(a, s, t, stream, r);
    assert r == stream + r[|stream|..];
    StreamRoundTrip(order, entries, r[|stream|..]);
    RestrictAll(order, entries);
  }

  lemma RestrictAll(order: seq<Name>, entries: map<Name, nat>)
    requires Enumerates(order, entries.Keys)
    ensures Restrict(order, entries) == entries
  {
  }

  lemma StreamNotEmpty(order: seq<Name>, entries: map<Name, nat>)
    requires Named(order, entries)
    ensures Stream(order, entries) != []
  {
    if order != [] {
      assert |EntryBytes(order[0], entries[order[0]])| > 0;
    }
  }

  /** A read of a whole file starts with what was last written at its start. */
  lemma PrefixRead(a: Area, s: State, t: State, data: seq<Byte>, r: seq<Byte>)
    requires data != [] && Wrote(a, s, t, 0, data)
    requires IsRead(a, t.blocks, t.nodes, t.inode.size, 0, t.inode.size, r)
    ensures data <= r
  {
    hide ByteAt;
    var k: nat, zero: nat := |r|, 0;
    assert k < |data| ==> HasByte(a, t.blocks, t.nodes, zero, data, k);
    forall i | 0 <= i < |data| && i < |r|
      ensures data[i] == r[i]
    {
      assert ByteAt(a, t.blocks, t.nodes, 0 + i) == Some(data[i]) == Some(r[i]);
    }
  }

  /** The entries of a stream, without the end mark. */
  function Entries(order: seq<Name>, entries: map<Name, nat>): seq<Byte>
    requires Named(order, entries)
  {
    if order == [] then []
    else
      var last := order[|order| - 1];
      Entries(order[..|order| - 1], entries) + EntryBytes(last, entries[last])
  }

  lemma {:induction false} StreamIs(order: seq<Name>, entries: map<Name, nat>)
    requires Named(order, entries)
    ensures Stream(order, entries) == Entries(order, entries) + Encode(END_INO, WORD)
  {
    hide Encode, EntryBytes;
    if order == [] {
      assert [] + Encode(END_INO, WORD) == Encode(END_INO, WORD);
    } else {
      StreamIs(order[1..], entries);
      EntriesFront(order, entries);
      var first, rest := EntryBytes(order[0], entries[order[0]]), Entries(order[1..], entries);
      assert first + (rest + Encode(END_INO, WORD)) == (first + rest) + Encode(END_INO, WORD);
    }
  }

  lemma {:induction false} EntriesFront(order: seq<Name>, entries: map<Name, nat>)
    requires order != [] && Named(order, entries)
    ensures Entries(order, entries) == EntryBytes(order[0], entries[order[0]]) + Entries(order[1..], entries)
    decreases |order|
  {
    hide EntryBytes;
    if |order| == 1 {
      assert order[..0] == [] && order[1..] == [];
    } else {
      var front, last := order[..|order| - 1], order[|order| - 1];
      EntriesFront(front, entries);
      assert front[1..] == order[1..][..|order| - 2] && order[1..][|order| - 2] == last;
      var a, b, c := EntryBytes(order[0], entries[order[0]]), Entries(front[1..], entries),
        EntryBytes(last, entries[last]);
      assert (a + b) + c == a + (b + c);
    }
  }

  lemma {:induction false} EntriesLength(order: seq<Name>, entries: map<Name, nat>, k: nat)
    requires k <= |order| && Named(order, entries)
    ensures Entries(order[..k], entries) <= Entries(order, entries)
    decreases |order|
  {
    hide EntryBytes;
    if k == |order| {
      assert order[..k] == order;
    } else {
      EntriesLength(order[..|order| - 1], entries, k);
      assert order[..|order| - 1][..k] == order[..k];
    }
  }

  /** On a full device a file without blocks keeps none of the data it is given, and its size. */
  lemma FullStoresNothing(a: Area, s: State, t: State, data: seq<Byte>, done: nat)
    requires DataOk(a) && Shape(a, t.nodes) && SizeOk(a, |data|) && done <= |data|
    requires s.nodes == map[] && s.used == a.count && t.used <= a.count && Wrote(a, s, t, 0, data[..done])
    ensures done == 0 && t.nodes == map[] && t.inode.size == s.inode.size
    ensures data != [] ==> Missing(a, s.nodes, 0, |data|) > 0
  {
    hide SizeOk, MaxBlocks, Needed, ByteAt, Shape, Stepped, PathNodes, Leaf, BlockOfPos;
    assert |t.nodes| <= 0;
    assert t.nodes == map[] by { assert t.nodes.Keys == {}; }
    SmallerSize(a, done, |data|);
    if done > 0 {
      EnoughFree(a, s, t, 0, data[..done]);
      SomeNeeded(a, done);
    }
    if data != [] {
      SomeNeeded(a, |data|);
    }
  }

  lemma SomeNeeded(a: Area, len: nat)
    requires Pc(a) > 0 && SizeOk(a, len) && len > 0
    ensures Missing(a, map[], 0, len) > 0
  {
    hide SizeOk, MaxBlocks, Needed, PathNodes, Leaf, BlockOfPos;
    ByteNeeds(a, 0, len, 0);
    LeafOnPath(Pc(a), BlockOfPos(0, a.unit).0);
    var none: map<Pos, nat> := map[];
    assert Leaf(Pc(a), BlockOfPos(0, a.unit).0) in Needed(a, 0, len) - none.Keys;
  }

  // ----- What the buffer passes on before it has the whole stream -----

  /** How far the first `k` entries get, each given as its number, the length of its name and the name. */
  ghost function FlowOf(unit: nat, order: seq<Name>, k: nat): (f: Flow)
    requires unit > 0 && k <= |order|
    ensures f.held <= CAPACITY
  {
    if k == 0 then Flow(0, 0)
    else Take(unit, Take(unit, Take(unit, FlowOf(unit, order, k - 1), WORD), WORD), |order[k - 1]|)
  }

  /** How far all entries and the end mark get. */
  ghost function FullFlow(unit: nat, order: seq<Name>): Flow
    requires unit > 0
  {
    Take(unit, FlowOf(unit, order, |order|), WORD)
  }

  /** The bytes that have to leave the buffer before it has taken the end mark. */
  ghost function Forced(unit: nat, order: seq<Name>): nat
    requires unit > 0
  {
    FullFlow(unit, order).sent
  }

  lemma FlowStart(unit: nat, order: seq<Name>)
    requires unit > 0
    ensures FlowOf(unit, order, 0) == Flow(0, 0)
  {
  }

  lemma FullIs(unit: nat, order: seq<Name>)
    requires unit > 0
    ensures FullFlow(unit, order) == Take(unit, FlowOf(unit, order, |order|), WORD)
    ensures FullFlow(unit, order).sent == Forced(unit, order)
  {
  }

  lemma FlowNext(unit: nat, order: seq<Name>, k: nat)
    requires unit > 0 && k < |order|
    ensures FlowOf(unit, order, k + 1)
      == Take(unit, Take(unit, Take(unit, FlowOf(unit, order, k), WORD), WORD), |order[k]|)
  {
  }

  lemma {:induction false} FlowGrows(unit: nat, order: seq<Name>, i: nat, j: nat)
    requires unit > 0 && i <= j <= |order|
    ensures FlowOf(unit, order, i).sent <= FlowOf(unit, order, j).sent <= Forced(unit, order)
    decreases |order| - i
  {
    hide Take;
    if i < j {
      FlowGrows(unit, order, i + 1, j);
    } else if j < |order| {
      FlowGrows(unit, order, i + 1, j + 1);
    }
  }

  /** No byte is lost on the way, and at most a buffer full of them is held. */
  lemma {:induction false} FlowTotal(unit: nat, order: seq<Name>, entries: map<Name, nat>, k: nat)
    requires unit > 0 && k <= |order| && Named(order, entries)
    ensures FlowOf(unit, order, k).sent + FlowOf(unit, order, k).held == |Entries(order[..k], entries)|
  {
    hide Take, Encode;
    EntriesNone(entries);
    assert order[..0] == [];
    if k > 0 {
      FlowTotal(unit, order, entries, k - 1);
      EntriesNext(order, entries, k - 1);
    }
  }

  lemma ForcedTotal(unit: nat, order: seq<Name>, entries: map<Name, nat>)
    requires unit > 0 && Named(order, entries)
    ensures Forced(unit, order) <= |Stream(order, entries)| <= Forced(unit, order) + CAPACITY
  {
    hide Take, Encode, Stream, Entries;
    StreamIs(order, entries);
    FlowTotal(unit, order, entries, |order|);
    assert order[..|order|] == order;
  }

  /** A stream that fits the buffer is held as a whole. */
  lemma {:induction false} NothingForced(unit: nat, order: seq<Name>, entries: map<Name, nat>, k: nat)
    requires unit > 0 && k <= |order| && Named(order, entries)
    requires |Entries(order[..k], entries)| + WORD <= CAPACITY
    ensures FlowOf(unit, order, k) == Flow(0, |Entries(order[..k], entries)|)
    ensures k == |order| ==> Forced(unit, order) == 0
  {
    hide Take, Encode;
    EntriesNone(entries);
    assert order[..0] == [];
    if k > 0 {
      EntriesNext(order, entries, k - 1);
      NothingForced(unit, order, entries, k - 1);
      var f := FlowOf(unit, order, k - 1);
      TakeFits(unit, f, WORD);
      TakeFits(unit, Flow(0, f.held + WORD), WORD);
      TakeFits(unit, Flow(0, f.held + WORD + WORD), |order[k - 1]|);
    }
    TakeFits(unit, FlowOf(unit, order, k), WORD);
  }

  class DkDir {
    const fh: DkFile
    var entries: map<Name, nat>
    var dirty: bool

    /** `from_file`, for a file already known to be a directory. */
    constructor (fh: DkFile)
      ensures this.fh == fh && entries == map[] && !dirty
    {
      this.fh := fh;
      entries, dirty := map[], false;
    }

    /** `add_entry`: an existing entry is kept; the directory counts as changed either way. */
    method AddEntry(name: Name, ino: nat) returns (r: DkResult<()>)
      modifies this`entries, this`dirty
      ensures dirty
      ensures name in old(entries) ==> r == Err(AlreadyExists) && entries == old(entries)
      ensures name !in old(entries) ==> r == Ok(()) && entries == old(entries)[name := ino]
    {
      if name in entries {
        r := Err(AlreadyExists);
      } else {
        entries := entries[name := ino];
        r := Ok(());
      }
      dirty := true;
    }

    /** `remove_entry`. */
    method RemoveEntry(name: Name) returns (r: Option<nat>)
      modifies this`entries, this`dirty
      ensures name in old(entries) ==> r == Some(old(entries)[name]) && entries == old(entries) - {name} && dirty
      ensures name !in old(entries) ==> r == None && entries == old(entries) && dirty == old(dirty)
    {
      if name in entries {
        r := Some(entries[name]);
        entries := entries - {name};
        dirty := true;
      } else {
        r := None;
      }
    }

    /** The order in which the entries are visited. */
    method Names() returns (order: seq<Name>)
      ensures Enumerates(order, entries.Keys)
    {
      order := [];
      var left := entries.Keys;
      while left != {}
        invariant left <= entries.Keys && Enumerates(order, entries.Keys - left)
        decreases left
      {
        var name :| name in left;
        order := order + [name];
        left := left - {name};
      }
    }

    /**
     Only a part of the stream got into the buffer: the next byte that was due for the file found no free block, so
     the bytes that have to leave the buffer needed more blocks than were free.
     */
    ghost predicate Lost(dk: Donkey, w: BufWriter, order: seq<Name>)
      requires Named(order, entries)
      reads this, w, w.file, fh, dk
    {
      && dk.data.unit > 0 && |w.put| < |Stream(order, entries)| && w.put == Stream(order, entries)[..|w.put|]
      && w.TooMany(dk, Forced(dk.data.unit, order))
    }

    /** One entry: its number, the length of its name, and the name. */
    method SerializeEntry(dk: Donkey, w: BufWriter, order: seq<Name>, k: nat) returns (r: DkResult<()>)
      requires k < |order| && Named(order, entries) && SizeOk(dk.data, |Stream(order, entries)|)
      requires w.Valid(dk) && w.file == fh && w.put == Entries(order[..k], entries) && w.reach == |w.put|
      requires dk.data.unit > 0 && w.Level() == FlowOf(dk.data.unit, order, k)
      modifies w`buf, w`put, w`reach, fh`inode, fh`pos, fh`dirty, fh`cache, fh`at, fh`nodes
      modifies dk`dev, dk`sb, dk`blocks, dk`freeBlocks
      ensures w.Valid(dk)
      ensures r.Ok? ==> w.put == Entries(order[..k + 1], entries) && w.reach == |w.put|
      ensures r.Ok? ==> w.Level() == FlowOf(dk.data.unit, order, k + 1)
      ensures r.Err? ==> r.error == Exhausted && Lost(dk, w, order)
    {
      hide BufWriter.Valid, SizeOk, Encode, Stream, Entries, DkFile.Stuck, BufWriter.TooMany, Take, Forced, FlowOf;
      FlowNext(dk.data.unit, order, k);
      var name := order[k];
      ghost var first := w.put;
      var number, length := Encode(entries[name], WORD), Encode(|name|, WORD);
      EntryParts(order, entries, k);
      SmallerSize(dk.data, |first + number + length + name|, |Stream(order, entries)|);
      SmallerSize(dk.data, |first + number + length|, |Stream(order, entries)|);
      SmallerSize(dk.data, |first + number|, |Stream(order, entries)|);
      r := w.WriteAll(dk, number);
      if r.Ok? {
        r := w.WriteAll(dk, length);
      }
      if r.Ok? {
        r := w.WriteAll(dk, name);
      }
      if r.Err? {
        ghost var level := FlowOf(dk.data.unit, order, k);
        EntryLost(dk, w, order, level, k);
      }
    }

    /** What an entry that did not get through needed is needed for the forced bytes. */
    lemma EntryLost(dk: Donkey, w: BufWriter, order: seq<Name>, f: Flow, k: nat)
      requires dk.data.unit > 0 && k < |order| && f == FlowOf(dk.data.unit, order, k)
      requires Named(order, entries) && SizeOk(dk.data, |Stream(order, entries)|)
      requires var g := Take(dk.data.unit, f, WORD);
        var h := Take(dk.data.unit, g, WORD);
        w.TooMany(dk, g.sent) || w.TooMany(dk, h.sent) || w.TooMany(dk, Take(dk.data.unit, h, |order[k]|).sent)
      ensures w.TooMany(dk, Forced(dk.data.unit, order))
    {
      hide SizeOk, Stream, BufWriter.TooMany, Take, Forced, FlowOf;
      var unit := dk.data.unit;
      FlowNext(unit, order, k);
      FlowGrows(unit, order, k + 1, |order|);
      ForcedTotal(unit, order, entries);
      SmallerSize(dk.data, Forced(unit, order), |Stream(order, entries)|);
      var g := Take(unit, f, WORD);
      var h := Take(unit, g, WORD);
      var e := Take(unit, h, |order[k]|);
      if w.TooMany(dk, g.sent) {
        w.MoreLost(dk, g.sent, Forced(unit, order));
      } else if w.TooMany(dk, h.sent) {
        w.MoreLost(dk, h.sent, Forced(unit, order));
      } else {
        w.MoreLost(dk, e.sent, Forced(unit, order));
      }
    }

    /** The loop of `flush`: every entry is written to the buffer, until one does not get through. */
    method SerializeEntries(dk: Donkey, w: BufWriter, order: seq<Name>) returns (r: DkResult<()>)
      requires Named(order, entries) && SizeOk(dk.data, |Stream(order, entries)|)
      requires w.Valid(dk) && w.put == [] && w.reach == 0 && w.file == fh
      modifies w`buf, w`put, w`reach, fh`inode, fh`pos, fh`dirty, fh`cache, fh`at, fh`nodes
      modifies dk`dev, dk`sb, dk`blocks, dk`freeBlocks
      ensures w.Valid(dk) && dk.data.unit > 0
      ensures r.Ok? ==> w.put == Entries(order, entries) && w.reach == |w.put|
      ensures r.Ok? ==> w.Level() == FlowOf(dk.data.unit, order, |order|)
      ensures r.Err? ==> r.error == Exhausted && Lost(dk, w, order)
    {
      hide BufWriter.Valid, SizeOk, Encode, Stream, Entries, DkFile.Stuck, BufWriter.TooMany, Take, FlowOf, Forced;
      hide Lost;
      w.BufferSize(dk);
      FlowStart(dk.data.unit, order);
      var k: nat := 0;
      EntriesNone(entries);
      assert order[..0] == [];
      while k < |order|
        invariant k <= |order| && w.Valid(dk) && w.put == Entries(order[..k], entries) && w.reach == |w.put|
        invariant w.Level() == FlowOf(dk.data.unit, order, k)
        decreases |order| - k
      {
        r := SerializeEntry(dk, w, order, k);
        if r.Err? {
          return;
        }
        k := k + 1;
      }
      assert order[..k] == order;
      return Ok(());
    }

    /** What `flush` puts into the buffer: the entries and the end mark. */
    method Serialize(dk: Donkey, w: BufWriter, order: seq<Name>) returns (r: DkResult<()>)
      requires Named(order, entries) && SizeOk(dk.data, |Stream(order, entries)|)
      requires w.Valid(dk) && w.put == [] && w.reach == 0 && w.file == fh
      modifies w`buf, w`put, w`reach, fh`inode, fh`pos, fh`dirty, fh`cache, fh`at, fh`nodes
      modifies dk`dev, dk`sb, dk`blocks, dk`freeBlocks
      ensures w.Valid(dk) && dk.data.unit > 0
      ensures r.Ok? ==> w.put == Stream(order, entries) && w.reach == |w.put|
      ensures r.Ok? ==> w.Level() == FullFlow(dk.data.unit, order)
      ensures r.Err? ==> r.error == Exhausted && Lost(dk, w, order)
    {
      hide BufWriter.Valid, SizeOk, Stream, Entries, FlowOf, FullFlow, Lost;
      r := SerializeEntries(dk, w, order);
      if r.Ok? {
        r := EndMark(dk, w, order);
      }
    }

    /** The end mark. */
    method EndMark(dk: Donkey, w: BufWriter, order: seq<Name>) returns (r: DkResult<()>)
      requires Named(order, entries) && SizeOk(dk.data, |Stream(order, entries)|)
      requires w.Valid(dk) && w.file == fh && w.put == Entries(order, entries) && w.reach == |w.put|
      requires dk.data.unit > 0 && w.Level() == FlowOf(dk.data.unit, order, |order|)
      modifies w`buf, w`put, w`reach, fh`inode, fh`pos, fh`dirty, fh`cache, fh`at, fh`nodes
      modifies dk`dev, dk`sb, dk`blocks, dk`freeBlocks
      ensures w.Valid(dk)
      ensures r.Ok? ==> w.put == Stream(order, entries) && w.reach == |w.put|
      ensures r.Ok? ==> w.Level() == FullFlow(dk.data.unit, order)
      ensures r.Err? ==> r.error == Exhausted && Lost(dk, w, order)
    {
      hide BufWriter.Valid, SizeOk, Encode, Stream, Entries, DkFile.Stuck, BufWriter.TooMany, Take, FlowOf, Forced;
      hide FullFlow;
      StreamIs(order, entries);
      FullIs(dk.data.unit, order);
      r := w.WriteAll(dk, Encode(END_INO, WORD));
    }

    /**
     `flush`: the stream goes through the buffer from position 0 over the older contents, which are not truncated. The
     first `done` bytes of it reach the file, all of them exactly when the blocks they still need are free. It fails
     exactly when the bytes that have to leave the buffer before the end mark is taken need more blocks than are free,
     and the directory then still counts as changed. What the last flush of the buffer cannot write is lost without an
     error, which is at most a buffer full.
     */
    method Flush(dk: Donkey) returns (r: DkResult<()>, ghost order: seq<Name>, ghost done: nat)
      requires fh.Valid(dk) && forall o :: Enumerates(o, entries.Keys) ==> SizeOk(dk.data, |Stream(o, entries)|)
      modifies this`dirty, fh`inode, fh`pos, fh`dirty, fh`cache, fh`at, fh`nodes, dk`dev, dk`sb, dk`blocks
      modifies dk`freeBlocks
      ensures fh.Valid(dk) && Pc(dk.data) > 0 && Enumerates(order, entries.Keys) && done <= |Stream(order, entries)|
      ensures !old(dirty) ==> r == Ok(()) && !dirty && fh.St(dk) == old(fh.St(dk))
      ensures old(dirty) ==> Wrote(dk.data, old(fh.St(dk)), fh.St(dk), 0, Stream(order, entries)[..done])
      ensures SizeOk(dk.data, |Stream(order, entries)|)
      ensures old(dirty) ==>
        (done == |Stream(order, entries)| <==>
           Missing(dk.data, old(fh.nodes), 0, |Stream(order, entries)|) <= dk.data.count - old(dk.sb).usedDbs)
      ensures dk.data.unit > 0 && SizeOk(dk.data, Forced(dk.data.unit, order))
      ensures old(dirty) ==>
        (r.Err? <==>
           Missing(dk.data, old(fh.nodes), 0, Forced(dk.data.unit, order)) > dk.data.count - old(dk.sb).usedDbs)
      ensures r.Ok? ==> !dirty
      ensures old(dirty) && r.Ok? ==> |Stream(order, entries)| - done <= CAPACITY
      ensures old(dirty) && done > 0 ==> fh.dirty
      ensures r.Err? ==>
        r.error == Exhausted && dirty && done < |Stream(order, entries)| && |Stream(order, entries)| > CAPACITY
    {
      hide DkFile.Valid, Wrote, Stream, SizeOk, Enumerates, Missing, DkFile.Stuck, BufWriter.Valid, Forced;
      var names := Names();
      order, done := names, 0;
      fh.Ready(dk);
      EveryName(names, entries);
      ForcedTotal(dk.data.unit, names, entries);
      SmallerSize(dk.data, Forced(dk.data.unit, names), |Stream(names, entries)|);
      if dirty {
        r, done := FlushThrough(dk, names);
      } else {
        r := Ok(());
      }
    }

    /** `flush` of a changed directory. */
    method FlushThrough(dk: Donkey, order: seq<Name>) returns (r: DkResult<()>, ghost done: nat)
      requires fh.Valid(dk) && Enumerates(order, entries.Keys) && SizeOk(dk.data, |Stream(order, entries)|) && dirty
      modifies this`dirty, fh`inode, fh`pos, fh`dirty, fh`cache, fh`at, fh`nodes, dk`dev, dk`sb, dk`blocks
      modifies dk`freeBlocks
      ensures fh.Valid(dk) && Pc(dk.data) > 0 && done <= |Stream(order, entries)|
      ensures Wrote(dk.data, old(fh.St(dk)), fh.St(dk), 0, Stream(order, entries)[..done])
      ensures done == |Stream(order, entries)| <==>
        Missing(dk.data, old(fh.nodes), 0, |Stream(order, entries)|) <= dk.data.count - old(dk.sb).usedDbs
      ensures dk.data.unit > 0 && SizeOk(dk.data, Forced(dk.data.unit, order))
      ensures old(dirty) ==>
        (r.Err? <==>
           Missing(dk.data, old(fh.nodes), 0, Forced(dk.data.unit, order)) > dk.data.count - old(dk.sb).usedDbs)
      ensures r.Ok? ==> !dirty
      ensures old(dirty) && r.Ok? ==> |Stream(order, entries)| - done <= CAPACITY
      ensures old(dirty) && done > 0 ==> fh.dirty
      ensures r.Err? ==>
        r.error == Exhausted && dirty && done < |Stream(order, entries)| && |Stream(order, entries)| > CAPACITY
    {
      hide DkFile.Valid, Wrote, Stream, SizeOk, Missing, DkFile.Stuck, BufWriter.Valid;
      hide Forced, Take, FlowOf, Enumerates;
      EveryName(order, entries);
      ghost var stream := Stream(order, entries);
      var seek := fh.SeekStart(0);
      var w := new BufWriter(fh, dk);
      w.BufferSize(dk);
      ghost var forced := Forced(dk.data.unit, order);
      ForcedTotal(dk.data.unit, order, entries);
      SmallerSize(dk.data, forced, |stream|);
      SpaceUsed(fh, dk);
      r := Serialize(dk, w, order);
      w.BufferSize(dk);
      if r.Ok? {
        dirty := false;
        ForcedSent(w, dk, order, entries);
      } else {
        w.MoreLost(dk, forced, |stream|);
        LongStream(dk.data, w.start, order, entries);
      }
      done := DropBuffer(dk, w, stream, r.Err?);
    }

    /** The buffer is dropped at the end of `flush`, whether it holds the whole stream or serializing failed. */
    method DropBuffer(dk: Donkey, w: BufWriter, ghost stream: seq<Byte>, ghost failed: bool) returns (ghost done: nat)
      requires w.Valid(dk) && w.file == fh && SizeOk(dk.data, |stream|)
      requires if failed then |w.put| < |stream| && w.put == stream[..|w.put|] && w.TooMany(dk, |stream|)
               else w.put == stream && w.reach == |stream|
      modifies w`buf, fh`inode, fh`pos, fh`dirty, fh`cache, fh`at, fh`nodes, dk`dev, dk`sb, dk`blocks, dk`freeBlocks
      ensures fh.Valid(dk) && Pc(dk.data) > 0 && old(fh.pos) <= done <= |stream|
      ensures Wrote(dk.data, w.start, fh.St(dk), 0, stream[..done])
      ensures done == |stream| <==> Missing(dk.data, w.start.nodes, 0, |stream|) <= dk.data.count - w.start.used
      ensures failed ==> done < |stream|
      ensures done > 0 ==> fh.dirty
    {
      hide DkFile.Valid, Wrote, SizeOk, Missing, DkFile.Stuck, BufWriter.Valid;
      var dropped := w.FlushBuf(dk);
      w.BufferSize(dk);
      done := fh.pos;
      if !failed && dropped.Err? {
        w.PutLost(dk);
      }
      Settle(w, dk, stream, !failed && dropped.Ok?);
    }

    /** `read_fully`: parses the bytes from the file's current position on; an empty file is a new directory. */
    method ReadFully(dk: Donkey) returns (r: DkResult<()>, ghost bytes: seq<Byte>)
      requires fh.Valid(dk) && SizeOk(dk.data, fh.inode.size) && entries == map[] && fh.pos < SEEK_LIMIT
      modifies this`entries, fh`pos, fh`cache, fh`at, dk`dev, dk`blocks
      ensures fh.Valid(dk) && Quiet(old(fh.St(dk)), fh.St(dk))
      ensures fh.inode.size == 0 ==> r == Ok(()) && entries == map[]
      ensures fh.inode.size > 0 ==>
        && IsRead(dk.data, old(dk.blocks), fh.nodes, fh.inode.size, old(fh.pos), fh.inode.size, bytes)
        && match Parse(bytes)
           case Ok(found) => r == Ok(()) && entries == found
           case Err(e) => r == Err(e)
    {
      hide DkFile.Valid, SizeOk, ByteAt, Quiet;
      if fh.inode.size == 0 {
        QuietSame(fh.St(dk));
        return Ok(()), [];
      }
      var got := fh.Read(dk, fh.pos, fh.inode.size);
      bytes := got.value;
      r := ReadEntries(got.value);
    }

    /** The loop of `read_fully`. */
    method ReadEntries(bytes: seq<Byte>) returns (r: DkResult<()>)
      modifies this`entries
      ensures match Parse(bytes)
        case Ok(found) => r == Ok(()) && entries == old(entries) + found
        case Err(e) => r == Err(e)
    {
      hide ParseItem;
      var s := bytes;
      while true
        invariant Parse(bytes).Ok? <==> Parse(s).Ok?
        invariant Parse(bytes).Err? ==> Parse(s) == Parse(bytes)
        invariant Parse(s).Ok? ==> entries + Parse(s).value == old(entries) + Parse(bytes).value
        decreases |s|
      {
        var item := ParseItem(s);
        if item.Err? {
          return Err(item.error);
        }
        if item.value.End? {
          return Ok(());
        }
        entries := entries[item.value.name := item.value.ino];
        s := item.value.rest;
      }
    }
  }

  lemma EntriesNone(entries: map<Name, nat>)
    ensures Entries([], entries) == []
  {
  }

  lemma EntryParts(order: seq<Name>, entries: map<Name, nat>, k: nat)
    requires k < |order| && Named(order, entries)
    ensures var name := order[k];
      var first, number, length := Entries(order[..k], entries), Encode(entries[name], WORD), Encode(|name|, WORD);
      && Entries(order[..k + 1], entries) == first + number + length + name
      && first + number + length + name <= Stream(order, entries)
      && |first + number + length + name| < |Stream(order, entries)|
  {
    hide Encode, Stream, Entries;
    StreamIs(order, entries);
    EntriesLength(order, entries, k + 1);
    EntriesNext(order, entries, k);
  }

  lemma EntriesNext(order: seq<Name>, entries: map<Name, nat>, k: nat)
    requires k < |order| && Named(order, entries)
    ensures var name := order[k];
      Entries(order[..k + 1], entries)
      == Entries(order[..k], entries) + Encode(entries[name], WORD) + Encode(|name|, WORD) + name
  {
    hide Encode;
    assert order[..k + 1][..k] == order[..k];
  }

  /** When the end mark has been taken, the forced bytes are in the file. */
  lemma ForcedSent(w: BufWriter, dk: Donkey, order: seq<Name>, entries: map<Name, nat>)
    requires w.Valid(dk) && dk.data.unit > 0 && Named(order, entries)
    requires SizeOk(dk.data, |Stream(order, entries)|) && w.put == Stream(order, entries)
    requires w.Level() == FullFlow(dk.data.unit, order)
    ensures Pc(dk.data) > 0 && w.file.pos == Forced(dk.data.unit, order) && SizeOk(dk.data, w.file.pos)
    ensures Missing(dk.data, w.start.nodes, 0, w.file.pos) <= dk.data.count - w.start.used
  {
    hide SizeOk, Grown, Needed, Missing, DkFile.Valid, Wrote, Take, Stream;
    ForcedTotal(dk.data.unit, order, entries);
    SmallerSize(dk.data, w.file.pos, |w.put|);
    SpaceUsed(w.file, dk);
    EnoughFree(dk.data, w.start, w.file.St(dk), 0, w.put[..w.file.pos]);
  }

  /** Bytes that are forced out of the buffer belong to a stream that does not fit it. */
  lemma LongStream(a: Area, s: State, order: seq<Name>, entries: map<Name, nat>)
    requires a.unit > 0 && Pc(a) > 0 && s.used <= a.count && Named(order, entries)
    requires SizeOk(a, Forced(a.unit, order)) && Missing(a, s.nodes, 0, Forced(a.unit, order)) > a.count - s.used
    ensures |Stream(order, entries)| > CAPACITY
  {
    hide SizeOk, Take, Stream, Entries, Encode;
    StreamIs(order, entries);
    assert order[..|order|] == order;
    if |Stream(order, entries)| <= CAPACITY {
      NothingForced(a.unit, order, entries, |order|);
    }
  }

  /** What has reached the file once the buffer is gone. */
  lemma Settle(w: BufWriter, dk: Donkey, stream: seq<Byte>, all: bool)
    requires w.Valid(dk) && SizeOk(dk.data, |stream|) && |w.put| <= |stream| && w.put == stream[..|w.put|]
    requires all ==> w.put == stream && w.buf == []
    requires !all ==> w.file.pos < |stream|
    requires !all && Pc(dk.data) > 0 ==> Missing(dk.data, w.start.nodes, 0, |stream|) > dk.data.count - w.start.used
    ensures Pc(dk.data) > 0 && w.file.pos <= |stream| && Wrote(dk.data, w.start, w.file.St(dk), 0, stream[..w.file.pos])
    ensures w.file.pos == |stream| <==> Missing(dk.data, w.start.nodes, 0, |stream|) <= dk.data.count - w.start.used
  {
    hide SizeOk, Grown, Needed, Missing, DkFile.Valid, Wrote;
    assert w.put[..w.file.pos] == stream[..w.file.pos];
    SpaceUsed(w.file, dk);
    if all {
      assert stream[..|stream|] == stream;
      EnoughFree(dk.data, w.start, w.file.St(dk), 0, stream);
    }
  }

  lemma SameRead(a: Area, blocks: seq<seq<Byte>>, nodes: map<Pos, nat>, after: seq<seq<Byte>>, kept: map<Pos, nat>,
                 size: nat, bytes: seq<Byte>)
    requires SameBytes(a, blocks, nodes, after, kept) && IsRead(a, after, kept, size, 0, size, bytes)
    ensures IsRead(a, blocks, nodes, size, 0, size, bytes)
  {
    hide ByteAt;
    var n: nat := 0 + |bytes|;
    assert ByteAt(a, after, kept, n) == ByteAt(a, blocks, nodes, n);
    forall i | 0 <= i < |bytes|
      ensures ByteAt(a, blocks, nodes, 0 + i) == Some(bytes[i])
    {
      assert ByteAt(a, after, kept, 0 + i) == Some(bytes[i]);
    }
  }

  lemma EveryName(order: seq<Name>, entries: map<Name, nat>)
    requires Enumerates(order, entries.Keys)
    ensures Named(order, entries)
  {
  }

  /** What a directory's file is like after `flush`. */
  lemma WroteFacts(a: Area, s: State, t: State, data: seq<Byte>, len: nat)
    requires Wrote(a, s, t, 0, data) && t.used <= a.count && |data| <= len
    requires SizeOk(a, s.inode.size) && SizeOk(a, len) && s.inode.size < WORD_LIMIT && len < WORD_LIMIT
    ensures t.inode == s.inode.(blocks := t.inode.blocks, ptrs := t.inode.ptrs, size := t.inode.size)
    ensures SizeOk(a, t.inode.size) && |data| <= t.inode.size < WORD_LIMIT && t.inode.blocks <= s.inode.blocks + a.count
  {
    hide Stepped, ByteAt, MaxBlocks, Times;
  }

  /** The file of a directory as it is opened again: its inode fits, and reading it gives the entries. */
  lemma ReadsBack(a: Area, s: State, t: State, order: seq<Name>, entries: map<Name, nat>,
                  after: seq<seq<Byte>>, kept: map<Pos, nat>, bytes: seq<Byte>)
    requires EntriesOk(entries) && Enumerates(order, entries.Keys) && Wrote(a, s, t, 0, Stream(order, entries))
    requires SameBytes(a, t.blocks, t.nodes, after, kept)
    requires IsRead(a, after, kept, t.inode.size, 0, t.inode.size, bytes)
    ensures Parse(bytes) == Ok(entries)
  {
    hide ByteAt, Parse, Stream, IsRead, SameBytes, EntriesOk, Enumerates;
    EveryName(order, entries);
    SameRead(a, t.blocks, t.nodes, after, kept, t.inode.size, bytes);
    DirectoryReadBack(a, s, t, order, entries, bytes);
  }

  /** The file of a directory of which only a part was written, as it is opened again. */
  lemma ReadsCut(a: Area, s: State, t: State, order: seq<Name>, entries: map<Name, nat>, done: nat,
                 after: seq<seq<Byte>>, kept: map<Pos, nat>, bytes: seq<Byte>)
    requires EntriesOk(entries) && Named(order, entries) && s.inode.size <= done < |Stream(order, entries)|
    requires Wrote(a, s, t, 0, Stream(order, entries)[..done]) && SameBytes(a, t.blocks, t.nodes, after, kept)
    ensures t.inode.size == done
    ensures IsRead(a, after, kept, done, 0, done, bytes) ==> Parse(bytes) == Err(Io)
  {
    hide ByteAt, Parse, Stream, EntriesOk, Named, Stepped;
    var part := Stream(order, entries)[..done];
    forall i | 0 <= i < done
      ensures ByteAt(a, after, kept, i) == Some(Stream(order, entries)[i])
    {
      assert ByteAt(a, t.blocks, t.nodes, 0 + i) == Some(part[i]);
      var x: nat := i;
      assert ByteAt(a, after, kept, x) == ByteAt(a, t.blocks, t.nodes, x);
    }
    if IsRead(a, after, kept, done, 0, done, bytes) {
      CutReadBack(a, after, kept, order, entries, done, bytes);
    }
  }

  lemma Rereads(a: Area, s: State, t: State, order: seq<Name>, entries: map<Name, nat>, done: nat,
                after: seq<seq<Byte>>, kept: map<Pos, nat>, bytes: seq<Byte>)
    requires EntriesOk(entries) && Enumerates(order, entries.Keys) && Named(order, entries)
    requires done <= |Stream(order, entries)| && Wrote(a, s, t, 0, Stream(order, entries)[..done])
    requires SameBytes(a, t.blocks, t.nodes, after, kept)
    ensures done == |Stream(order, entries)| && IsRead(a, after, kept, t.inode.size, 0, t.inode.size, bytes) ==>
      Parse(bytes) == Ok(entries)
    ensures s.inode.size <= done < |Stream(order, entries)| ==> t.inode.size == done
    ensures s.inode.size <= done < |Stream(order, entries)| && IsRead(a, after, kept, done, 0, done, bytes) ==>
      Parse(bytes) == Err(Io)
  {
    hide Parse, Stream, Wrote, IsRead, EntriesOk, Enumerates, Named, SameBytes;
    var stream := Stream(order, entries);
    if done == |stream| {
      assert stream[..done] == stream;
      if IsRead(a, after, kept, t.inode.size, 0, t.inode.size, bytes) {
        ReadsBack(a, s, t, order, entries, after, kept, bytes);
      }
    } else if s.inode.size <= done {
      ReadsCut(a, s, t, order, entries, done, after, kept, bytes);
    }
  }

  /** Room in the inode's counter and sizes that fit 64 bits. */
  ghost predicate Roomy(dk: Donkey, d: DkDir)
    reads dk, d, d.fh
  {
    && InodeFits(d.fh.inode) && d.fh.inode.blocks + dk.data.count + 2 < WORD_LIMIT && SizeOk(dk.data, d.fh.inode.size)
    && forall o :: Enumerates(o, d.entries.Keys) ==>
         SizeOk(dk.data, |Stream(o, d.entries)|) && |Stream(o, d.entries)| < WORD_LIMIT
  }

  /** `open_dir`: a `DkDir` on a file already known to be a directory, filled by `read_fully`. */
  method OpenDir(dk: Donkey, f: DkFile) returns (r: DkResult<DkDir>, ghost bytes: seq<Byte>)
    requires f.Valid(dk) && SizeOk(dk.data, f.inode.size) && f.pos < SEEK_LIMIT
    modifies f`pos, f`cache, f`at, dk`dev, dk`blocks
    ensures f.Valid(dk) && Quiet(old(f.St(dk)), f.St(dk))
    ensures r.Ok? ==> fresh(r.value) && r.value.fh == f && !r.value.dirty
    ensures f.inode.size == 0 ==> r.Ok? && r.value.entries == map[]
    ensures f.inode.size > 0 ==>
      && IsRead(dk.data, old(dk.blocks), f.nodes, f.inode.size, old(f.pos), f.inode.size, bytes)
      && match Parse(bytes)
         case Ok(found) => r.Ok? && r.value.entries == found
         case Err(e) => r == Err(e)
  {
    hide DkFile.Valid, SizeOk, IsRead, Quiet, Parse;
    var dir := new DkDir(f);
    var read;
    read, bytes := dir.ReadFully(dk);
    if read.Err? {
      return Err(read.error), bytes;
    }
    return Ok(dir), bytes;
  }

  /** A directory that `mknod` has just made opens without entries. */
  method OpenNewDir(dk: Donkey, mode: nat, owner: seq<nat>, nlink: nat, times: seq<nat>, device: nat)
    returns (r: DkResult<DkDir>)
    requires dk.Valid() && NodeFits(mode, owner, nlink, times, device)
    modifies dk`dev, dk`blocks, dk`sb, dk`slots, dk`freeSlots
    ensures r.Err? <==> old(dk.sb.usedInodes) == dk.table.count
    ensures r.Err? ==> r.error == Exhausted
    ensures r.Ok? ==>
      && fresh(r.value) && r.value.fh.Valid(dk) && r.value.entries == map[] && !r.value.dirty
      && r.value.fh.inode.mode == mode && r.value.fh.inode.nlink == nlink
  {
    hide DkFile.Valid, SizeOk, Quiet, Parse, InodeIn, InodeFits, SystemOk;
    var ino := MakeNode(dk, mode, owner, nlink, times, device);
    if ino.Err? {
      return Err(ino.error);
    }
    ghost var i := InodeIn(dk.slots[ino.value - ROOT_INODE]);
    var f := OpenNew(dk, ino.value, i);
    f.Ready(dk);
    ghost var bytes;
    r, bytes := OpenDir(dk, f);
  }

  /** A directory whose file ends within the stream of its entries, and is not empty, cannot be opened. */
  method OpenCutDir(dk: Donkey, f: DkFile, ghost order: seq<Name>, ghost entries: map<Name, nat>)
    returns (r: DkResult<DkDir>)
    requires f.Valid(dk) && SizeOk(dk.data, f.inode.size) && f.pos == 0
    requires EntriesOk(entries) && Named(order, entries) && 0 < f.inode.size < |Stream(order, entries)|
    requires forall i :: 0 <= i < f.inode.size ==>
      ByteAt(dk.data, dk.blocks, f.nodes, i) == Some(Stream(order, entries)[i])
    modifies f`pos, f`cache, f`at, dk`dev, dk`blocks
    ensures r == Err(Io) && f.Valid(dk)
  {
    hide DkFile.Valid, SizeOk, IsRead, Quiet, Parse, ByteAt, Stream, EntriesOk, Named;
    ghost var blocks := dk.blocks;
    ghost var bytes;
    r, bytes := OpenDir(dk, f);
    CutReadBack(dk.data, blocks, f.nodes, order, entries, f.inode.size, bytes);
  }

  /**
   A changed directory is flushed, its file closed and opened again, and its entries read: they are the same whenever
   the whole stream was written, which is exactly when the blocks it still needed were free. Attributes that do not fit
   one block make the directory impossible to open.
   */
  method CloseAndReopenDir(dk: Donkey, d: DkDir) returns (r: DkResult<DkDir>, ghost order: seq<Name>, ghost done: nat)
    requires d.fh.Valid(dk) && d.dirty && d.fh.inode.nlink > 0 && EntriesOk(d.entries)
    requires (AttrsOk(d.fh.xattr) || AttrsFit(d.fh.xattr, dk.data.unit)) && Roomy(dk, d)
    modifies d`dirty, d.fh`inode, d.fh`pos, d.fh`dirty, d.fh`cache, d.fh`at, d.fh`nodes
    modifies dk`dev, dk`sb, dk`blocks, dk`freeBlocks, dk`slots
    ensures Pc(dk.data) > 0 && Enumerates(order, d.entries.Keys) && SizeOk(dk.data, |Stream(order, d.entries)|)
    ensures done == |Stream(order, d.entries)| <==>
      Missing(dk.data, old(d.fh.nodes), 0, |Stream(order, d.entries)|) <= dk.data.count - old(dk.sb).usedDbs
    ensures done == |Stream(order, d.entries)| && r.Ok? ==>
      fresh(r.value) && r.value.fh.Valid(dk) && r.value.entries == d.entries && !r.value.dirty
    ensures done == |Stream(order, d.entries)| && r.Err? ==>
      AttrsOk(d.fh.xattr) && AttrsFit(d.fh.xattr, dk.data.unit) ==>
      r.error == Exhausted
    ensures done == |Stream(order, d.entries)| && AttrsOk(d.fh.xattr) && AttrsLong(d.fh.xattr, dk.data.unit) ==> r.Err?
    ensures old(d.fh.inode).size <= done < |Stream(order, d.entries)| && r.Ok? ==> done == 0 && r.value.entries == map[]
  {
    hide DkFile.Valid, Wrote, Stream, SizeOk, Enumerates, Missing, XattrOnly, SameLookups, SameBytes, InodeFits;
    hide Parse, IsRead, Quiet, EntriesOk, AttrsFit, AttrsLong, AttrsOk, XattrData, Stored;
    ghost var s, a := d.fh.St(dk), dk.data;
    var flushed;
    flushed, order, done := d.Flush(dk);
    if flushed.Err? {
      return Err(flushed.error), order, done;
    }
    EveryName(order, d.entries);
    ghost var t, stream := d.fh.St(dk), Stream(order, d.entries);
    FlushedDir(dk, d, s, order, done);
    InodeStillFits(d.fh, dk, s.inode);
    var reopened;
    ghost var data;
    reopened, data := CloseAndReopen(dk, d.fh);
    XattrInode(t, d.fh.St(dk));
    DataLength(data, d.fh.xattr, dk.data.unit);
    if |data| <= dk.data.unit {
      InodeStillFits(d.fh, dk, s.inode);
    }
    if reopened.Err? {
      return Err(reopened.error), order, done;
    }
    ghost var after, kept := dk.blocks, reopened.value.nodes;
    ghost var bytes;
    r, bytes := OpenDir(dk, reopened.value);
    Rereads(a, s, t, order, d.entries, done, after, kept, bytes);
  }

  lemma DataLength(data: seq<Byte>, attrs: Attrs, unit: nat)
    ensures AttrsFit(attrs, unit) && (data == [] || XattrData(data, attrs)) ==> |data| <= unit
    ensures AttrsLong(attrs, unit) && XattrData(data, attrs) ==> |data| > unit
  {
    hide XattrData;
  }

  lemma FlushedDir(dk: Donkey, d: DkDir, s: State, order: seq<Name>, done: nat)
    requires d.fh.Valid(dk) && InodeFits(s.inode) && Enumerates(order, d.entries.Keys) && SizeOk(dk.data, s.inode.size)
    requires Named(order, d.entries) && done <= |Stream(order, d.entries)| < WORD_LIMIT
    requires SizeOk(dk.data, |Stream(order, d.entries)|)
    requires Wrote(dk.data, s, d.fh.St(dk), 0, Stream(order, d.entries)[..done])
    ensures Stream(order, d.entries) != [] && SizeOk(dk.data, d.fh.inode.size) && done <= d.fh.inode.size < WORD_LIMIT
    ensures d.fh.inode == s.inode.(blocks := d.fh.inode.blocks, ptrs := d.fh.inode.ptrs, size := d.fh.inode.size)
    ensures d.fh.inode.blocks <= s.inode.blocks + dk.data.count
  {
    hide DkFile.Valid, Wrote, Stream, SizeOk, InodeFits, Shape;
    SpaceUsed(d.fh, dk);
    FitsSize(s.inode);
    StreamNotEmpty(order, d.entries);
    WroteFacts(dk.data, s, d.fh.St(dk), Stream(order, d.entries)[..done], |Stream(order, d.entries)|);
  }

  /**
   On a full device a changed directory whose file has no block and whose stream is longer than the buffer is not
   flushed: `flush` fails, the directory still counts as changed, and nothing of it is on the disk.
   */
  method FlushFailsFull(dk: Donkey, d: DkDir) returns (r: DkResult<()>)
    requires d.fh.Valid(dk) && d.dirty && d.fh.nodes == map[] && dk.sb.usedDbs == dk.data.count
    requires forall o :: Enumerates(o, d.entries.Keys) ==>
      SizeOk(dk.data, |Stream(o, d.entries)|) && |Stream(o, d.entries)| > 8192
    modifies d`dirty, d.fh`inode, d.fh`pos, d.fh`dirty, d.fh`cache, d.fh`at, d.fh`nodes
    modifies dk`dev, dk`sb, dk`blocks, dk`freeBlocks
    ensures r == Err(Exhausted) && d.dirty && d.fh.Valid(dk)
    ensures d.fh.nodes == map[] && d.fh.inode.size == old(d.fh.inode).size
  {
    hide DkFile.Valid, Wrote, Stream, SizeOk, Enumerates, Missing, Shape, DataOk, Forced;
    ghost var s := d.fh.St(dk);
    ghost var order, done;
    r, order, done := d.Flush(dk);
    EveryName(order, d.entries);
    SpaceUsed(d.fh, dk);
    FullStoresNothing(dk.data, s, d.fh.St(dk), Stream(order, d.entries), done);
    ForcedTotal(dk.data.unit, order, d.entries);
    SomeNeeded(dk.data, Forced(dk.data.unit, order));
  }

  lemma OneEntry(order: seq<Name>, name: Name, ino: nat)
    requires Enumerates(order, map[name := ino].Keys)
    ensures order == [name] && |Stream(order, map[name := ino])| == 3 * WORD + |name|
  {
    hide Encode;
    assert name in map[name := ino].Keys;
    assert name in order;
    assert order[0] in order && order[|order| - 1] in order;
    assert order == [name] && order[1..] == [];
  }

  /**
   A directory with one new entry is flushed on a full device, its file having no block yet: `flush` reports success,
   the directory no longer counts as changed, and nothing of it is on the disk.
   */
  method FlushLosesEntry(dk: Donkey, d: DkDir, name: Name, ino: nat) returns (r: DkResult<()>)
    requires d.fh.Valid(dk) && d.dirty && d.entries == map[name := ino] && 3 * WORD + |name| <= 8192
    requires SizeOk(dk.data, 3 * WORD + |name|)
    requires d.fh.nodes == map[] && dk.sb.usedDbs == dk.data.count
    modifies d`dirty, d.fh`inode, d.fh`pos, d.fh`dirty, d.fh`cache, d.fh`at, d.fh`nodes
    modifies dk`dev, dk`sb, dk`blocks, dk`freeBlocks
    ensures r.Ok? && !d.dirty && d.entries == map[name := ino]
    ensures d.fh.Valid(dk) && d.fh.nodes == map[] && d.fh.inode.size == old(d.fh.inode).size
  {
    hide DkFile.Valid, Wrote, Stream, SizeOk, Enumerates, Missing, Shape, DataOk;
    ghost var s := d.fh.St(dk);
    forall o | Enumerates(o, d.entries.Keys)
      ensures Named(o, d.entries) && SizeOk(dk.data, |Stream(o, d.entries)|)
    {
      EveryName(o, d.entries);
      OneEntry(o, name, ino);
    }
    ghost var order, done;
    r, order, done := d.Flush(dk);
    EveryName(order, d.entries);
    OneEntry(order, name, ino);
    SpaceUsed(d.fh, dk);
    FullStoresNothing(dk.data, s, d.fh.St(dk), Stream(order, d.entries), done);
  }
}
