/**
 The directories of a history on a device. `Tables` records what the directories on disk contain, `Isolation` the blocks
 and maps of all files: a volume shows the former when reading each directory back gives its entries. Every change of
 the tables' disk, with what `DkDir` and `DkFile` promise for it, keeps that, so an unmounted volume gives the history's
 tree.
 */
module Volumes {
  import opened Codec
  import opened Areas
  import opened Positions
  import opened Frames
  import opened Contents
  import opened Isolation
  import opened Results
  import opened DonkeyFs
  import opened DkFiles
  import opened Links
  import opened Directory
  import opened Tables
  import opened Histories
  import opened Trees

  /** All files with their blocks, and the size each has. */
  datatype Volume = Volume(disk: System, sizes: map<nat, nat>)

  /** What `open_dir` finds in the file: the parse of all its bytes; an empty file is an empty directory. */
  ghost predicate ReadsAs(a: Area, blocks: seq<seq<Byte>>, nodes: map<Pos, nat>, size: nat, entries: map<Name, nat>) {
    if size == 0 then entries == map[]
    else forall bytes :: IsRead(a, blocks, nodes, size, 0, size, bytes) ==> Parse(bytes) == Ok(entries)
  }

  ghost predicate DirShown(a: Area, v: Volume, d: nat, entries: map<Name, nat>) {
    d in v.disk.files && d in v.sizes && ReadsAs(a, v.disk.blocks, v.disk.files[d].nodes, v.sizes[d], entries)
  }

  /** Each directory on disk is read as the tables have it. */
  ghost predicate Shows(a: Area, v: Volume, stored: map<nat, map<Name, nat>>) {
    forall d :: d in stored ==> DirShown(a, v, d, stored[d])
  }

  /**
   A change of the disk: a step of a file that keeps its bytes, any step of a file that is no directory, a directory's
   complete flush, a new inode, a destroyed one.
   */
  datatype Change =
    | Keep(file: nat)
    | Write(file: nat)
    | Store(file: nat, entries: map<Name, nat>)
    | Make(file: nat, isDir: bool)
    | Drop(file: nat)

  function Event(c: Change): Isolation.Event {
    match c
    case Make(i, _) => Create(i)
    case Drop(i) => Remove(i)
    case _ => Work(c.file)
  }

  /** The directories on disk after a change. */
  function After(stored: map<nat, map<Name, nat>>, c: Change): map<nat, map<Name, nat>> {
    match c
    case Store(d, entries) => stored[d := entries]
    case Make(i, isDir) => if isDir then stored[i := map[]] else stored
    case Drop(i) => stored - {i}
    case _ => stored
  }

  /** What the contracts promise for the change, on the volume. */
  ghost predicate Changed(a: Area, v: Volume, w: Volume, c: Change) {
    && Next(a, v.disk, w.disk, Event(c))
    && match c
       case Keep(i) =>
         && w.sizes == v.sizes
         && SameBytes(a, v.disk.blocks, v.disk.files[i].nodes, w.disk.blocks, w.disk.files[i].nodes)
       case Write(i) => i in w.sizes && w.sizes == v.sizes[i := w.sizes[i]]
       case Store(d, entries) =>
         && EntriesOk(entries) && d in w.sizes && w.sizes == v.sizes[d := w.sizes[d]]
         && exists s, t, order :: FlushedWhole(a, v, w, d, entries, s, t, order)
       case Make(i, _) => w.sizes == v.sizes[i := 0]
       case Drop(i) => w.sizes == v.sizes - {i}
  }

  /** A flush that wrote the whole stream. */
  ghost predicate FlushedWhole(a: Area, v: Volume, w: Volume, d: nat, entries: map<Name, nat>, s: State, t: State,
                               order: seq<Name>) {
    && Enumerates(order, entries.Keys) && Wrote(a, s, t, 0, Stream(order, entries))
    && d in w.disk.files && d in w.sizes
    && t.blocks == w.disk.blocks && t.nodes == w.disk.files[d].nodes && t.inode.size == w.sizes[d]
  }

  lemma OtherShown(a: Area, v: Volume, w: Volume, c: Change, d: nat, entries: map<Name, nat>)
    requires Partitioned(a, v.disk) && Changed(a, v, w, c) && c.file != d && DirShown(a, v, d, entries)
    ensures DirShown(a, w, d, entries)
  {
    hide Partitioned, IsRead, Parse, ByteAt, SameBytes, FlushedWhole;
    EventFile(c);
    StepUndisturbed(a, v.disk, w.disk, Event(c), d);
    var f := v.disk.files[d].nodes;
    assert SameBytes(a, v.disk.blocks, f, w.disk.blocks, f) by { SameFromUndisturbed(a, v.disk, w.disk, d); }
    KeptReads(a, v.disk.blocks, f, w.disk.blocks, f, v.sizes[d], entries);
  }

  lemma EventFile(c: Change)
    ensures Event(c).file == c.file
  {
  }

  lemma SameFromUndisturbed(a: Area, s: System, t: System, d: nat)
    requires Undisturbed(a, s, t, d)
    ensures SameBytes(a, s.blocks, s.files[d].nodes, t.blocks, s.files[d].nodes)
  {
    hide ByteAt;
  }

  lemma KeptReads(a: Area, blocks: seq<seq<Byte>>, nodes: map<Pos, nat>, after: seq<seq<Byte>>, kept: map<Pos, nat>,
                  size: nat, entries: map<Name, nat>)
    requires ReadsAs(a, blocks, nodes, size, entries) && SameBytes(a, blocks, nodes, after, kept)
    ensures ReadsAs(a, after, kept, size, entries)
  {
    hide IsRead, Parse, SameBytes;
    forall bytes | IsRead(a, after, kept, size, 0, size, bytes)
      ensures IsRead(a, blocks, nodes, size, 0, size, bytes)
    {
      SameRead(a, blocks, nodes, after, kept, size, bytes);
    }
  }

  lemma StoreShown(a: Area, v: Volume, w: Volume, d: nat, entries: map<Name, nat>)
    requires Changed(a, v, w, Store(d, entries))
    ensures DirShown(a, w, d, entries)
  {
    hide IsRead, Parse, Stream, Wrote, Enumerates, EntriesOk, Next;
    var s, t, order :| FlushedWhole(a, v, w, d, entries, s, t, order);
    EveryName(order, entries);
    StreamNotEmpty(order, entries);
    WroteSize(a, s, t, Stream(order, entries));
    forall bytes | IsRead(a, w.disk.blocks, w.disk.files[d].nodes, w.sizes[d], 0, w.sizes[d], bytes)
      ensures Parse(bytes) == Ok(entries)
    {
      DirectoryReadBack(a, s, t, order, entries, bytes);
    }
  }

  lemma WroteSize(a: Area, s: State, t: State, data: seq<Byte>)
    requires Wrote(a, s, t, 0, data)
    ensures |data| <= t.inode.size
  {
    hide Stepped, ByteAt;
  }

  /** Every change keeps tables and volume together. */
  lemma ChangeShown(a: Area, v: Volume, w: Volume, stored: map<nat, map<Name, nat>>, c: Change)
    requires Partitioned(a, v.disk) && Shows(a, v, stored) && Changed(a, v, w, c)
    requires c.Write? ==> c.file !in stored
    ensures Partitioned(a, w.disk) && Shows(a, w, After(stored, c))
  {
    hide Partitioned, Changed, DirShown;
    ChangeNext(a, v, w, c);
    StepPartitioned(a, v.disk, w.disk, Event(c));
    forall d | d in After(stored, c)
      ensures DirShown(a, w, d, After(stored, c)[d])
    {
      if d != c.file {
        OtherShown(a, v, w, c, d, stored[d]);
      } else {
        OwnShown(a, v, w, stored, c);
      }
    }
  }

  lemma ChangeNext(a: Area, v: Volume, w: Volume, c: Change)
    requires Changed(a, v, w, c)
    ensures Next(a, v.disk, w.disk, Event(c))
  {
  }

  lemma OwnShown(a: Area, v: Volume, w: Volume, stored: map<nat, map<Name, nat>>, c: Change)
    requires Changed(a, v, w, c) && (c.Write? ==> c.file !in stored) && c.file in After(stored, c)
    requires c.file in stored ==> DirShown(a, v, c.file, stored[c.file])
    ensures DirShown(a, w, c.file, After(stored, c)[c.file])
  {
    hide IsRead, Parse, SameBytes, FlushedWhole, Moved, FileOk;
    match c
    case Keep(i) =>
      KeptReads(a, v.disk.blocks, v.disk.files[i].nodes, w.disk.blocks, w.disk.files[i].nodes, v.sizes[i], stored[i]);
    case Store(d, entries) => StoreShown(a, v, w, d, entries);
    case _ =>
  }

  // ----- Runs -----

  /** The directories on disk after a sequence of changes. */
  function Play(stored: map<nat, map<Name, nat>>, changes: seq<Change>): map<nat, map<Name, nat>>
    decreases |changes|
  {
    if changes == [] then stored else Play(After(stored, changes[0]), changes[1..])
  }

  /** The volume goes through these changes; only files that are no directories are written at will. */
  ghost predicate VolumeRun(a: Area, volumes: seq<Volume>, stored: map<nat, map<Name, nat>>, changes: seq<Change>)
    decreases |changes|
  {
    && |volumes| == |changes| + 1
    && (changes != [] ==>
          && Changed(a, volumes[0], volumes[1], changes[0])
          && (changes[0].Write? ==> changes[0].file !in stored)
          && VolumeRun(a, volumes[1..], After(stored, changes[0]), changes[1..]))
  }

  /** Over every run the volume shows the directories that the tables have on disk. */
  lemma {:induction false} RunShown(a: Area, volumes: seq<Volume>, stored: map<nat, map<Name, nat>>,
                                    changes: seq<Change>)
    requires VolumeRun(a, volumes, stored, changes) && Partitioned(a, volumes[0].disk) && Shows(a, volumes[0], stored)
    ensures Shows(a, volumes[|changes|], Play(stored, changes)) && Partitioned(a, volumes[|changes|].disk)
    decreases |changes|
  {
    hide Partitioned, Shows, Changed, After;
    if changes != [] {
      ChangeShown(a, volumes[0], volumes[1], stored, changes[0]);
      RunShown(a, volumes[1..], After(stored, changes[0]), changes[1..]);
    }
  }

  /** The steps of the tables that touch the directories on disk are such changes; flushing a file is none. */
  lemma TableChanges(t: Tables, i: nat, slot: Option<nat>, isDir: bool)
    ensures i in t.files ==> FlushFile(t, i).stored == t.stored
    ensures i in t.files ==>
      Dropped(t, i).stored == if t.files[i].nlink == 0 then After(t.stored, Drop(i)) else t.stored
    ensures i in t.dirs && i in t.files ==>
      FlushDir(t, i).stored == if t.dirs[i].dirty then After(t.stored, Store(i, t.dirs[i].entries)) else t.stored
    ensures Mknod(t, slot, isDir).t.stored == if slot.Some? then After(t.stored, Make(slot.value, isDir)) else t.stored
  {
  }

  /**
   A history of a formatted file system, unmounted without handles, and a device that went, from empty, through changes
   which add up to the tables' disk: reading every directory of the device back gives, all together, exactly the entries
   of the tree that the calls made.
   */
  lemma TreeReadBack(a: Area, calls: seq<Call>, volumes: seq<Volume>, changes: seq<Change>)
    requires LegalRun(Formatted(), calls)
    requires Run(Formatted(), calls).fileRefs == multiset{} && Run(Formatted(), calls).dirRefs == multiset{}
    requires VolumeRun(a, volumes, map[], changes) && Partitioned(a, volumes[0].disk)
    requires Play(map[], changes) == ApplyReleases(Run(Formatted(), calls)).stored
    ensures var t, v := Run(Formatted(), calls), volumes[|changes|];
      var u := ApplyReleases(t);
      && LinksOf(u.stored, map[]) == AfterAll(NewTree(), calls).links
      && forall d :: d in u.stored ==> DirShown(a, v, d, u.stored[d])
  {
    hide Run, LegalRun, Formatted, ApplyReleases, AllLinks, LinksOf, VolumeRun, Play, Partitioned, DirShown, Good,
      AfterAll, NewTree;
    UnmountComplete(calls);
    RunShown(a, volumes, map[], changes);
  }

  /** Opening a shown directory of a real device gives exactly the entries shown. */
  method OpenShown(dk: Donkey, f: DkFile, ghost v: Volume, ghost d: nat, ghost entries: map<Name, nat>)
    returns (r: DkResult<DkDir>)
    requires f.Valid(dk) && SizeOk(dk.data, f.inode.size) && f.pos == 0 && DirShown(dk.data, v, d, entries)
    requires v.disk.blocks == dk.blocks && v.disk.files[d] == f.Map() && v.sizes[d] == f.inode.size
    modifies f`pos, f`cache, f`at, dk`dev, dk`blocks
    ensures r.Ok? && r.value.entries == entries && f.Valid(dk)
  {
    hide DkFile.Valid, SizeOk, IsRead, Quiet, Parse;
    ghost var bytes;
    r, bytes := Directory.OpenDir(dk, f);
  }
}
