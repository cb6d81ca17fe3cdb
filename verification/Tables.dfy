/**
 Open-file tables and link counts (lib.rs, ops.rs) as values. File contents are left to the other modules: an
 inode is its link count and kind, a directory its entries. `Rc::strong_count` is modelled by counting handles.
 */
module Tables {
  import opened Results
  import opened Links

  const MAX_NAMELEN := 256

  datatype Meta = Meta(nlink: nat, isDir: bool)
  datatype MemFile = MemFile(nlink: nat, isDir: bool, dirty: bool)
  datatype MemDir = MemDir(entries: map<Name, nat>, dirty: bool)

  /**
   `inodes` and `stored` are on disk: allocated inodes, and directory contents as last flushed. `files` and `dirs`
   are the open tables, `fileRefs` and `dirRefs` count the handles outside them, the rest are the pending lists.
   */
  datatype Tables = Tables(
    inodes: map<nat, Meta>, stored: map<nat, map<Name, nat>>,
    files: map<nat, MemFile>, dirs: map<nat, MemDir>,
    fileRefs: multiset<nat>, dirRefs: multiset<nat>,
    closeFiles: seq<nat>, closeDirs: seq<nat>)

  datatype Out<+R> = Out(t: Tables, r: DkResult<R>)

  // ----- What tables and disk say together -----

  function Nlink(t: Tables, i: nat): nat {
    if i in t.files then t.files[i].nlink else if i in t.inodes then t.inodes[i].nlink else 0
  }

  /** The entries of a directory: those in memory if it is open, and those on disk otherwise. */
  function EntriesOf(stored: map<nat, map<Name, nat>>, dirs: map<nat, MemDir>, d: nat): map<Name, nat> {
    if d in dirs then dirs[d].entries else if d in stored then stored[d] else map[]
  }

  function LinksOf(stored: map<nat, map<Name, nat>>, dirs: map<nat, MemDir>): map<Key, nat> {
    map d, n | d in stored && n in EntriesOf(stored, dirs, d) :: (d, n) := EntriesOf(stored, dirs, d)[n]
  }

  /** All entries of all directories. */
  function AllLinks(t: Tables): map<Key, nat> {
    LinksOf(t.stored, t.dirs)
  }

  predicate IsDir(t: Tables, i: nat) {
    i in t.inodes && t.inodes[i].isDir
  }

  /** Someone besides the file table refers to the file: a handle, or the open directory. */
  predicate Held(t: Tables, i: nat) {
    t.fileRefs[i] > 0 || i in t.dirs
  }

  // ----- Closing -----

  /** `flush` of a file in memory. */
  function FlushFile(t: Tables, i: nat): (u: Tables)
    requires i in t.files
    ensures t.files[i].nlink == 0 || !t.files[i].dirty ==> u == t
  {
    var f := t.files[i];
    if f.dirty && f.nlink > 0 then
      t.(inodes := t.inodes[i := Meta(f.nlink, f.isDir)], files := t.files[i := f.(dirty := false)])
    else t
  }

  /** File `i` flushed and dropped from the table, its inode destroyed if it has no link. */
  function Dropped(t: Tables, i: nat): Tables
    requires i in t.files
  {
    var v := FlushFile(t, i);
    if v.files[i].nlink == 0
    then v.(files := v.files - {i}, inodes := v.inodes - {i}, stored := v.stored - {i})
    else v.(files := v.files - {i})
  }

  /** One round of `close_files_in_list`. */
  function CloseFile(t: Tables): Tables
    requires t.closeFiles != []
  {
    var i := t.closeFiles[|t.closeFiles| - 1];
    var u := t.(closeFiles := t.closeFiles[..|t.closeFiles| - 1]);
    if i in u.files && !Held(u, i) then Dropped(u, i) else u
  }

  function CloseFiles(t: Tables): (u: Tables)
    ensures u.dirs == t.dirs
    decreases |t.closeFiles|
  {
    if t.closeFiles == [] then t else CloseFiles(CloseFile(t))
  }

  /** `flush` of a directory in memory: its file is written to, hence dirty. */
  function FlushDir(t: Tables, d: nat): (u: Tables)
    requires d in t.dirs && d in t.files
    ensures if t.dirs[d].dirty then d in u.files && u.files[d].dirty else u == t
  {
    if t.dirs[d].dirty then
      t.(stored := t.stored[d := t.dirs[d].entries],
         files := t.files[d := t.files[d].(dirty := true)],
         dirs := t.dirs[d := t.dirs[d].(dirty := false)])
    else t
  }

  /** Directory `d` flushed and dropped. */
  function Shut(t: Tables, d: nat): Tables
    requires d in t.dirs && d in t.files
  {
    var v := FlushDir(t, d);
    v.(dirs := v.dirs - {d}, closeFiles := v.closeFiles + [d])
  }

  /** One round of `close_dirs_in_list`; the dropped directory lets go of its file. */
  function CloseDir(t: Tables): Tables
    requires t.closeDirs != []
  {
    var d := t.closeDirs[|t.closeDirs| - 1];
    var u := t.(closeDirs := t.closeDirs[..|t.closeDirs| - 1]);
    if d in u.dirs && d in u.files && u.dirRefs[d] == 0 then Shut(u, d) else u
  }

  function CloseDirs(t: Tables): Tables
    decreases |t.closeDirs|
  {
    if t.closeDirs == [] then t else CloseDirs(CloseDir(t))
  }

  /** `apply_releases`. */
  function ApplyReleases(t: Tables): Tables
  {
    CloseFiles(CloseDirs(t))
  }

  // ----- Handles -----

  /** `open`; reading a slot that holds no inode is reported as corruption. */
  function Open(t: Tables, i: nat): (o: Out<()>)
    ensures o.t.dirs == t.dirs
  {
    var u := CloseFiles(t);
    if i in u.files then Out(u.(fileRefs := u.fileRefs + multiset{i}), Ok(()))
    else if i !in u.inodes then Out(u, Err(Corrupted))
    else
      var f := MemFile(u.inodes[i].nlink, u.inodes[i].isDir, false);
      Out(u.(files := u.files[i := f], fileRefs := u.fileRefs + multiset{i}), Ok(()))
  }

  function DropFile(t: Tables, i: nat): Tables {
    t.(closeFiles := t.closeFiles + [i], fileRefs := t.fileRefs - multiset{i})
  }

  /** `open_dir` of a directory not in memory; the new directory keeps the file handle. */
  function LoadedDir(t: Tables, d: nat): (o: Out<()>)
    ensures o.r.Ok? ==> d in o.t.dirs
  {
    var o := Open(t, d);
    if o.r.Err? then o
    else if d !in o.t.files || !o.t.files[d].isDir || d !in o.t.stored then Out(DropFile(o.t, d), Err(NotDirectory))
    else
      Out(o.t.(fileRefs := o.t.fileRefs - multiset{d}, dirRefs := o.t.dirRefs + multiset{d},
               dirs := o.t.dirs[d := MemDir(o.t.stored[d], false)]), Ok(()))
  }

  /** `open_dir`. */
  function OpenDir(t: Tables, d: nat): (o: Out<()>)
    ensures o.r.Ok? ==> d in o.t.dirs
  {
    var u := CloseDirs(t);
    if d in u.dirs then Out(u.(dirRefs := u.dirRefs + multiset{d}), Ok(())) else LoadedDir(u, d)
  }

  function DropDir(t: Tables, d: nat): Tables {
    t.(closeDirs := t.closeDirs + [d], dirRefs := t.dirRefs - multiset{d})
  }

  // ----- Entries and link counts -----

  function WithEntries(t: Tables, d: nat, entries: map<Name, nat>): Tables {
    t.(dirs := t.dirs[d := MemDir(entries, true)])
  }

  /** Sets the link count of an open file. */
  function WithNlink(t: Tables, i: nat, n: nat): Tables
    requires i in t.files
  {
    t.(files := t.files[i := t.files[i].(nlink := n, dirty := true)])
  }

  /** `Donkey::link`: consumes the handle on `parent`. */
  function Link(t: Tables, i: nat, parent: nat, name: Name): (o: Out<()>)
    requires parent in t.dirs
    ensures o.t.dirs.Keys == t.dirs.Keys
  {
    var entries := t.dirs[parent].entries;
    if name in entries then Out(DropDir(WithEntries(t, parent, entries), parent), Err(AlreadyExists))
    else
      var o := Open(WithEntries(t, parent, entries[name := i]), i);
      if o.r.Err? || i !in o.t.files then Out(DropDir(o.t, parent), o.r)
      else Out(DropDir(DropFile(WithNlink(o.t, i, o.t.files[i].nlink + 1), i), parent), Ok(()))
  }

  /** `Donkey::unlink`: consumes the handle on `parent`. */
  function Unlink(t: Tables, parent: nat, name: Name): Out<()>
    requires parent in t.dirs
  {
    var entries := t.dirs[parent].entries;
    if name !in entries then Out(DropDir(t, parent), Ok(()))
    else
      var i := entries[name];
      var o := Open(WithEntries(t, parent, entries - {name}), i);
      if o.r.Err? || i !in o.t.files || o.t.files[i].nlink == 0 then Out(DropDir(o.t, parent), o.r)
      else Out(DropDir(DropFile(WithNlink(o.t, i, o.t.files[i].nlink - 1), i), parent), Ok(()))
  }

  /** `Donkey::mknod` with the slot the allocator hands out: a new inode without links. */
  function Mknod(t: Tables, slot: Option<nat>, isDir: bool): Out<nat> {
    if slot.None? then Out(t, Err(Exhausted))
    else
      var i := slot.value;
      Out(t.(inodes := t.inodes[i := Meta(0, isDir)], stored := if isDir then t.stored[i := map[]] else t.stored),
        Ok(i))
  }

  // ----- The invariant -----

  /** The deferred-close protocol: whatever nobody holds is on a pending list. */
  ghost predicate Wired(t: Tables) {
    && (forall i :: i in t.files && !Held(t, i) ==> i in t.closeFiles)
    && (forall d :: d in t.dirs && t.dirRefs[d] == 0 ==> d in t.closeDirs)
    && (forall d :: d in t.dirs ==> d in t.files && t.files[d].isDir)
    && (forall i :: i in t.fileRefs ==> i in t.files)
    && (forall d :: d in t.dirRefs ==> d in t.dirs)
  }

  /** Tables and disk agree wherever nothing is dirty. */
  ghost predicate Cached(t: Tables) {
    && (forall i :: i in t.files ==> i in t.inodes && t.files[i].isDir == t.inodes[i].isDir)
    && (forall i :: i in t.files && !t.files[i].dirty ==> t.files[i].nlink == t.inodes[i].nlink)
    && (forall d :: d in t.stored <==> IsDir(t, d))
    && (forall d :: d in t.dirs && !t.dirs[d].dirty ==> d in t.stored && t.dirs[d].entries == t.stored[d])
  }

  /** Link counts are exact, except that `x` is owed `owed`; entries name live inodes. */
  ghost predicate Exact(t: Tables, x: nat, owed: int) {
    && (forall i :: i in t.inodes ==> Count(AllLinks(t), i) == Nlink(t, i) + (if i == x then owed else 0))
    && (forall k :: k in AllLinks(t) ==> AllLinks(t)[k] in t.inodes)
  }

  /** A directory is empty or has its dot entries, except those being made or removed, which someone has open. */
  ghost predicate Dotted(t: Tables, unfinished: set<nat>) {
    && (forall k :: k in AllLinks(t) && k.0 !in unfinished ==> HasDots(AllLinks(t), k.0))
    && (forall d :: d in unfinished ==> t.dirRefs[d] > 0)
  }

  /** The inode outlives the closing of pending files. */
  predicate Survives(t: Tables, i: nat) {
    i in t.inodes && (Nlink(t, i) > 0 || i !in t.files || Held(t, i))
  }

  ghost predicate Good(t: Tables, x: nat, owed: int, unfinished: set<nat>) {
    && Wired(t) && Cached(t) && Exact(t, x, owed) && Dotted(t, unfinished)
    && (owed > 0 ==> Survives(t, x))
  }

  /** Good, with no operation in progress. */
  ghost predicate Settled(t: Tables) {
    Good(t, 0, 0, {})
  }

  /** Between the two only inodes without links disappeared; no entry and no remaining count changed. */
  ghost predicate Reaped(t: Tables, u: Tables) {
    && AllLinks(u) == AllLinks(t)
    && (forall i :: i in u.inodes ==>
          i in t.inodes && Nlink(u, i) == Nlink(t, i) && u.inodes[i].isDir == t.inodes[i].isDir)
    && (forall i :: i in t.inodes && Nlink(t, i) > 0 ==> i in u.inodes)
  }

  lemma ReapedTrans(t: Tables, u: Tables, v: Tables)
    requires Reaped(t, u) && Reaped(u, v)
    ensures Reaped(t, v)
  {
    hide AllLinks, Nlink;
  }

  /** Handles and directories in memory are the same. */
  predicate SameHandles(t: Tables, u: Tables) {
    u.fileRefs == t.fileRefs && u.dirRefs == t.dirRefs && u.dirs == t.dirs && u.closeDirs == t.closeDirs
  }

  // ----- Closing keeps the invariant -----

  /** A directory about to be destroyed is empty. */
  lemma DeadIsEmpty(t: Tables, x: nat, owed: int, unfinished: set<nat>, d: nat)
    requires Good(t, x, owed, unfinished) && d in t.files && !Held(t, d) && Nlink(t, d) == 0
    ensures Count(AllLinks(t), d) <= 0 && forall k :: k in AllLinks(t) ==> k.0 != d && AllLinks(t)[k] != d
  {
    hide AllLinks, Count;
    assert d == x ==> owed <= 0;
    forall k | k in AllLinks(t)
      ensures AllLinks(t)[k] != d
    {
      CountPositive(AllLinks(t), k);
    }
    forall k | k in AllLinks(t) && k.0 == d
      ensures HasDots(AllLinks(t), d)
    {
      assert d !in unfinished;
    }
  }

  /** What a step must show to keep the invariant when it only reaps. */
  lemma GoodAfter(t: Tables, u: Tables, x: nat, owed: int, unfinished: set<nat>)
    requires Good(t, x, owed, unfinished) && Reaped(t, u) && Wired(u) && Cached(u)
    requires forall d :: d in unfinished ==> u.dirRefs[d] > 0
    requires owed > 0 ==> Survives(u, x)
    ensures Good(u, x, owed, unfinished)
  {
    hide AllLinks, Count, Wired, Cached, HasDots, Nlink;
    forall k | k in AllLinks(u)
      ensures AllLinks(u)[k] in u.inodes
    {
      CountPositive(AllLinks(t), k);
    }
  }

  lemma DroppedReaped(t: Tables, x: nat, owed: int, unfinished: set<nat>, i: nat)
    requires Good(t, x, owed, unfinished) && i in t.files && !Held(t, i)
    ensures Reaped(t, Dropped(t, i))
    ensures forall j :: j in Dropped(t, i).inodes <==> j in t.inodes && (j != i || Nlink(t, i) > 0)
  {
    hide Exact, Dotted, LinksOf, Wired, Survives;
    if Nlink(t, i) == 0 {
      DeadIsEmpty(t, x, owed, unfinished, i);
      LinksWithout(t.stored, t.dirs, i);
    }
  }

  lemma LinksWithout(stored: map<nat, map<Name, nat>>, dirs: map<nat, MemDir>, d: nat)
    requires forall k :: k in LinksOf(stored, dirs) ==> k.0 != d
    ensures LinksOf(stored - {d}, dirs) == LinksOf(stored, dirs)
  {
    assert forall e :: e != d ==> EntriesOf(stored - {d}, dirs, e) == EntriesOf(stored, dirs, e);
    hide EntriesOf;
    forall k: Key
      ensures k in LinksOf(stored - {d}, dirs) <==> k in LinksOf(stored, dirs)
    {
      assert k == (k.0, k.1);
    }
  }

  lemma DroppedWired(t: Tables, i: nat)
    requires Wired(t) && Cached(t) && i in t.files && !Held(t, i)
    ensures Wired(Dropped(t, i)) && Cached(Dropped(t, i))
  {
    hide Wired, Cached;
    DroppedWires(t, i);
    DroppedCache(t, i);
  }

  lemma DroppedSurvives(t: Tables, i: nat, x: nat)
    requires i in t.files && !Held(t, i)
    ensures Survives(t, x) ==> Survives(Dropped(t, i), x)
  {
  }

  lemma DroppedWires(t: Tables, i: nat)
    requires Wired(t) && i in t.files && !Held(t, i)
    ensures Wired(Dropped(t, i))
  {
    hide Dropped;
    DroppedParts(t, i);
  }

  lemma DroppedCache(t: Tables, i: nat)
    requires Cached(t) && i in t.files && i !in t.dirs
    ensures Cached(Dropped(t, i))
  {
  }

  /** One file less pending: it went if nobody held it, and its inode with it if it had no link. */
  ghost predicate FileClosed(t: Tables, u: Tables)
    requires t.closeFiles != []
  {
    && Reaped(t, u) && SameHandles(t, u) && u.closeFiles == t.closeFiles[..|t.closeFiles| - 1]
    && (forall i :: i in t.inodes && i !in u.inodes ==> i in t.files && Nlink(t, i) == 0 && !Held(t, i))
    && (forall i :: i in u.files ==> i in t.files) && (forall i :: i in t.files && Held(t, i) ==> i in u.files)
    && (forall i :: i in t.files && i !in u.files && Nlink(t, i) == 0 ==> i !in u.inodes)
  }

  lemma CloseFileGood(t: Tables, x: nat, owed: int, unfinished: set<nat>)
    requires Good(t, x, owed, unfinished) && t.closeFiles != []
    ensures Good(CloseFile(t), x, owed, unfinished) && FileClosed(t, CloseFile(t))
  {
    hide AllLinks, LinksOf, Nlink, Count, HasDots, Wired, Cached, Reaped, Exact, Dropped, CloseFile;
    var i := t.closeFiles[|t.closeFiles| - 1];
    var rest := t.closeFiles[..|t.closeFiles| - 1];
    var u := CloseFile(t);
    PendingLess(t);
    CloseFileIs(t);
    if i in t.files && !Held(t, i) {
      DroppedParts(t, i);
      DroppedReaped(t, x, owed, unfinished, i);
      DroppedWired(t, i);
      DropPending(Dropped(t, i), i, rest, t.closeFiles);
      SameView(Dropped(t, i), u);
      ReapedTrans(t, Dropped(t, i), u);
      DroppedSurvives(t, i, x);
      GoodAfter(t, u, x, owed, unfinished);
    } else {
      SameView(t, u);
      DropPending(t, i, rest, t.closeFiles);
      GoodAfter(t, u, x, owed, unfinished);
    }
  }

  lemma PendingLess(t: Tables)
    requires t.closeFiles != []
    ensures var n := |t.closeFiles| - 1;
      forall j :: j in t.closeFiles ==> j == t.closeFiles[n] || j in t.closeFiles[..n]
  {
  }

  lemma CloseFileIs(t: Tables)
    requires t.closeFiles != []
    ensures var i, rest := t.closeFiles[|t.closeFiles| - 1], t.closeFiles[..|t.closeFiles| - 1];
      && i in t.closeFiles
      && CloseFile(t) == (if i in t.files && !Held(t, i) then Dropped(t, i) else t).(closeFiles := rest)
  {
  }

  lemma DroppedParts(t: Tables, i: nat)
    requires i in t.files
    ensures SameHandles(t, Dropped(t, i)) && Dropped(t, i).files.Keys == t.files.Keys - {i}
    ensures Dropped(t, i).closeFiles == t.closeFiles
    ensures forall j :: j in Dropped(t, i).files ==> Dropped(t, i).files[j] == t.files[j]
  {
  }

  /** Taking `i`, which is not open or is held, off the pending list. */
  lemma DropPending(t: Tables, i: nat, rest: seq<nat>, pending: seq<nat>)
    requires Wired(t) && (i !in t.files || Held(t, i)) && t.closeFiles == pending
    requires forall j :: j in pending ==> j == i || j in rest
    ensures Wired(t.(closeFiles := rest)) && (Cached(t) ==> Cached(t.(closeFiles := rest)))
    ensures AllLinks(t.(closeFiles := rest)) == AllLinks(t)
    ensures forall j :: Nlink(t.(closeFiles := rest), j) == Nlink(t, j)
  {
    hide LinksOf, Wired;
    PendingWired(t, i, rest, pending);
  }

  lemma PendingWired(t: Tables, i: nat, rest: seq<nat>, pending: seq<nat>)
    requires Wired(t) && (i !in t.files || Held(t, i)) && t.closeFiles == pending
    requires forall j :: j in pending ==> j == i || j in rest
    ensures Wired(t.(closeFiles := rest))
  {
  }

  /** The pending lists and handle counts do not show in the tree. */
  lemma SameView(t: Tables, u: Tables)
    requires u.inodes == t.inodes && u.stored == t.stored && u.files == t.files && u.dirs == t.dirs
    ensures Reaped(t, u) && (Cached(t) ==> Cached(u))
    ensures forall j :: Nlink(u, j) == Nlink(t, j)
  {
    hide LinksOf;
  }

  /** Exactly the files that someone holds are open, and exactly the unlinked inodes among the others are gone. */
  ghost predicate FilesClosed(t: Tables, u: Tables) {
    && Reaped(t, u) && SameHandles(t, u) && u.closeFiles == []
    && (forall i :: i in u.files <==> i in t.files && Held(t, i))
    && (forall i :: i in t.inodes ==> (i !in u.inodes <==> i in t.files && Nlink(t, i) == 0 && !Held(t, i)))
  }

  lemma ClosedOn(t: Tables, v: Tables, u: Tables)
    requires t.closeFiles != [] && FileClosed(t, v) && FilesClosed(v, u)
    requires forall i :: i in t.files ==> i in t.inodes
    requires forall i :: i in v.files ==> i in v.inodes
    ensures FilesClosed(t, u)
  {
    hide AllLinks, Nlink, Reaped;
    ReapedTrans(t, v, u);
    ReapedNlinks(t, v);
    ReapedNlinks(v, u);
    assert forall i :: Held(v, i) <==> Held(t, i);
  }

  lemma ReapedNlinks(t: Tables, u: Tables)
    requires Reaped(t, u)
    ensures forall i :: i in u.inodes ==> i in t.inodes && Nlink(u, i) == Nlink(t, i)
  {
    hide AllLinks, Nlink;
  }

  lemma ClosedNone(t: Tables)
    requires Wired(t) && t.closeFiles == []
    ensures FilesClosed(t, t)
  {
    hide AllLinks, Nlink;
  }

  /**
   `close_files_in_list`: afterwards every file in the table is held, and an inode was destroyed exactly when
   it had no link and its file was held by nobody.
   */
  lemma {:induction false} CloseFilesGood(t: Tables, x: nat, owed: int, unfinished: set<nat>)
    requires Good(t, x, owed, unfinished)
    ensures FilesClosed(t, CloseFiles(t)) && Good(CloseFiles(t), x, owed, unfinished)
    decreases |t.closeFiles|
  {
    hide AllLinks, LinksOf, Count, HasDots, Exact, Dotted, Cached, Wired, Nlink, CloseFile, FilesClosed, FileClosed,
      Survives;
    if t.closeFiles == [] {
      ClosedNone(t);
    } else {
      var v := CloseFile(t);
      CloseFileGood(t, x, owed, unfinished);
      PendingPopped(t, v);
      CloseFilesGood(v, x, owed, unfinished);
      FilesLive(v);
      FilesLive(t);
      ClosedOn(t, v, CloseFiles(v));
    }
  }

  lemma PendingPopped(t: Tables, v: Tables)
    requires t.closeFiles != [] && FileClosed(t, v)
    ensures |v.closeFiles| < |t.closeFiles|
  {
    hide AllLinks, Nlink, Reaped;
  }

  lemma ReapedSame(t: Tables)
    ensures Reaped(t, t)
  {
  }

  lemma FilesLive(t: Tables)
    requires Cached(t)
    ensures forall i :: i in t.files ==> i in t.inodes
  {
  }

  // ----- Closing directories -----

  lemma CloseDirGood(t: Tables, unfinished: set<nat>)
    requires Good(t, 0, 0, unfinished) && t.closeDirs != []
    ensures var u := CloseDir(t);
      && Good(u, 0, 0, unfinished) && Reaped(t, u) && u.closeDirs == t.closeDirs[..|t.closeDirs| - 1]
      && u.fileRefs == t.fileRefs && u.dirRefs == t.dirRefs && u.files.Keys == t.files.Keys && u.inodes == t.inodes
      && (forall d :: d in u.dirs ==> d in t.dirs && u.dirs[d] == t.dirs[d])
      && (forall d :: d in t.dirs && t.dirRefs[d] > 0 ==> d in u.dirs)
  {
    hide LinksOf, Count, HasDots, Exact, Dotted, Wired, Cached, Nlink, AllLinks, Shut, CloseDir;
    DirsAreFiles(t);
    CloseDirIs(t);
    var d, rest := t.closeDirs[|t.closeDirs| - 1], t.closeDirs[..|t.closeDirs| - 1];
    var u := CloseDir(t);
    assert forall e :: e in t.closeDirs ==> e == d || e in rest;
    if d in t.dirs && t.dirRefs[d] == 0 {
      ShutParts(t, d);
      ShutLinks(t, d);
      SameView(Shut(t, d), u);
      ReapedTrans(t, Shut(t, d), u);
      ShutWired(t, d, rest);
      ShutCached(t, d, rest);
      UnfinishedHeld(t, unfinished);
      GoodAfter(t, u, 0, 0, unfinished);
    } else {
      SameView(t, u);
      PopDir(t, d, rest);
      UnfinishedHeld(t, unfinished);
      GoodAfter(t, u, 0, 0, unfinished);
    }
  }

  lemma CloseDirIs(t: Tables)
    requires t.closeDirs != [] && t.dirs.Keys <= t.files.Keys
    ensures var d, rest := t.closeDirs[|t.closeDirs| - 1], t.closeDirs[..|t.closeDirs| - 1];
      CloseDir(t) == (if d in t.dirs && t.dirRefs[d] == 0 then Shut(t, d) else t).(closeDirs := rest)
  {
  }

  lemma ShutParts(t: Tables, d: nat)
    requires d in t.dirs && d in t.files
    ensures var u := Shut(t, d);
      && u.fileRefs == t.fileRefs && u.dirRefs == t.dirRefs && u.files.Keys == t.files.Keys && u.inodes == t.inodes
      && u.dirs.Keys == t.dirs.Keys - {d} && forall e :: e in u.dirs ==> u.dirs[e] == t.dirs[e]
  {
  }

  lemma UnfinishedHeld(t: Tables, unfinished: set<nat>)
    requires Dotted(t, unfinished)
    ensures forall d :: d in unfinished ==> t.dirRefs[d] > 0
  {
  }

  lemma DirsAreFiles(t: Tables)
    requires Wired(t)
    ensures t.dirs.Keys <= t.files.Keys
  {
  }

  lemma ShutLinks(t: Tables, d: nat)
    requires Cached(t) && Wired(t) && d in t.dirs && d in t.files
    ensures Reaped(t, Shut(t, d))
  {
    hide Wired;
    var u := Shut(t, d);
    assert IsDir(t, d) by { DirIsStored(t, d); }
    SameLinks(t.stored, t.dirs, u.stored, u.dirs);
  }

  lemma DirIsStored(t: Tables, d: nat)
    requires Cached(t) && Wired(t) && d in t.dirs
    ensures IsDir(t, d) && d in t.stored
  {
  }

  lemma SameLinks(stored: map<nat, map<Name, nat>>, dirs: map<nat, MemDir>, after: map<nat, map<Name, nat>>,
                  mem: map<nat, MemDir>)
    requires stored.Keys == after.Keys
    requires forall d :: d in stored ==> EntriesOf(after, mem, d) == EntriesOf(stored, dirs, d)
    ensures LinksOf(after, mem) == LinksOf(stored, dirs)
  {
    hide EntriesOf;
    forall k: Key
      ensures k in LinksOf(after, mem) <==> k in LinksOf(stored, dirs)
    {
      assert k == (k.0, k.1);
    }
  }

  lemma ShutWired(t: Tables, d: nat, rest: seq<nat>)
    requires Wired(t) && d in t.dirs && d in t.files && t.dirRefs[d] == 0
    requires forall e :: e in t.closeDirs ==> e == d || e in rest
    ensures Wired(Shut(t, d).(closeDirs := rest))
  {
    var u := Shut(t, d).(closeDirs := rest);
    assert u.dirs.Keys == t.dirs.Keys - {d};
    assert u.files.Keys == t.files.Keys;
    assert d in u.closeFiles;
    assert forall i :: i in t.closeFiles ==> i in u.closeFiles;
    assert d !in t.dirRefs;
  }

  lemma ShutCached(t: Tables, d: nat, rest: seq<nat>)
    requires Cached(t) && Wired(t) && d in t.dirs && d in t.files
    ensures Cached(Shut(t, d).(closeDirs := rest))
  {
    DirIsStored(t, d);
  }

  lemma PopDir(t: Tables, d: nat, rest: seq<nat>)
    requires Wired(t) && (d !in t.dirs || t.dirRefs[d] > 0) && forall e :: e in t.closeDirs ==> e == d || e in rest
    ensures Wired(t.(closeDirs := rest))
  {
  }

  /** Exactly the directories with a handle are in memory, and no entry has changed. */
  ghost predicate DirsClosed(t: Tables, u: Tables) {
    && Reaped(t, u) && u.closeDirs == []
    && u.fileRefs == t.fileRefs && u.dirRefs == t.dirRefs && u.files.Keys == t.files.Keys && u.inodes == t.inodes
    && (forall d :: d in u.dirs <==> d in t.dirs && t.dirRefs[d] > 0)
  }

  /** `close_dirs_in_list`: afterwards every directory in the table has a handle, and no entry has changed. */
  lemma {:induction false} CloseDirsGood(t: Tables, unfinished: set<nat>)
    requires Good(t, 0, 0, unfinished)
    ensures DirsClosed(t, CloseDirs(t)) && Good(CloseDirs(t), 0, 0, unfinished)
    decreases |t.closeDirs|
  {
    hide AllLinks, Count, HasDots, Exact, Dotted, Cached, Nlink, CloseDir;
    DirsAreFiles(t);
    if t.closeDirs == [] {
      ReapedSame(t);
    } else {
      var v := CloseDir(t);
      CloseDirGood(t, unfinished);
      CloseDirsGood(v, unfinished);
      ReapedTrans(t, v, CloseDirs(v));
    }
  }

  /** Nothing is pending, what is open has a handle, and exactly the unlinked inodes without one are gone. */
  ghost predicate ReleaseEffect(t: Tables, u: Tables) {
    && Settled(u) && Reaped(t, u) && u.closeFiles == [] && u.closeDirs == []
    && u.fileRefs == t.fileRefs && u.dirRefs == t.dirRefs
    && (forall d :: d in u.dirs <==> d in t.dirs && t.dirRefs[d] > 0)
    && (forall i :: i in u.files <==> i in t.files && (t.fileRefs[i] > 0 || t.dirRefs[i] > 0))
    && (forall i :: i in t.inodes ==>
          (i !in u.inodes <==> i in t.files && Nlink(t, i) == 0 && t.fileRefs[i] == 0 && t.dirRefs[i] == 0))
  }

  /**
   `apply_releases`: nothing is left pending, every open directory has a handle, every open file has a handle or
   an open directory, and exactly the unlinked inodes without either are gone.
   */
  lemma ApplyReleasesGood(t: Tables)
    requires Settled(t)
    ensures ReleaseEffect(t, ApplyReleases(t))
  {
    hide AllLinks, Count, HasDots, Exact, Dotted, Cached, Wired, DirsClosed, FilesClosed, ReleaseEffect, CloseFiles,
      CloseDirs;
    CloseDirsGood(t, {});
    var v := CloseDirs(t);
    CloseFilesGood(v, 0, 0, {});
    RefsOpen(t);
    Released(t, v, CloseFiles(v));
  }

  lemma Released(t: Tables, v: Tables, u: Tables)
    requires DirsClosed(t, v) && FilesClosed(v, u) && Settled(u) && forall d :: t.dirRefs[d] > 0 ==> d in t.dirs
    ensures ReleaseEffect(t, u)
  {
    hide AllLinks, Good, Nlink, Reaped;
    ReapedTrans(t, v, u);
    ReapedNlinks(t, v);
  }

  lemma RefsOpen(t: Tables)
    requires Wired(t)
    ensures forall d :: t.dirRefs[d] > 0 ==> d in t.dirs
  {
  }

  // ----- Handles keep the invariant -----

  /** One handle more on an inode that is there; entries and counts are the same, and a file just loaded is clean. */
  ghost predicate OpenEffect(t: Tables, o: Out<()>, x: nat, owed: int, unfinished: set<nat>, i: nat) {
    && o.r == Ok(()) && Good(o.t, x, owed, unfinished) && Reaped(t, o.t)
    && i in o.t.files && i in o.t.inodes && o.t.fileRefs == t.fileRefs + multiset{i}
    && o.t.dirRefs == t.dirRefs && o.t.dirs == t.dirs && o.t.closeDirs == t.closeDirs
    && (i !in t.files ==> !o.t.files[i].dirty)
  }

  /** A new handle on an inode that outlives the closing of pending files. */
  lemma OpenGood(t: Tables, x: nat, owed: int, unfinished: set<nat>, i: nat)
    requires Good(t, x, owed, unfinished) && Survives(t, i)
    ensures OpenEffect(t, Open(t, i), x, owed, unfinished, i)
  {
    hide AllLinks, LinksOf, Count, HasDots, Exact, Dotted, CloseFiles, Cached, Wired;
    var u := CloseFiles(t);
    CloseFilesGood(t, x, owed, unfinished);
    OpenAfter(u, x, owed, unfinished, i);
    ReapedTrans(t, u, Open(t, i).t);
  }

  /** `open` once the pending files are closed. */
  function Opened(u: Tables, i: nat): Tables
    requires i in u.files || i in u.inodes
  {
    if i in u.files then u.(fileRefs := u.fileRefs + multiset{i})
    else
      var f := MemFile(u.inodes[i].nlink, u.inodes[i].isDir, false);
      u.(files := u.files[i := f], fileRefs := u.fileRefs + multiset{i})
  }

  lemma OpenAfter(u: Tables, x: nat, owed: int, unfinished: set<nat>, i: nat)
    requires Good(u, x, owed, unfinished) && (i in u.files || i in u.inodes)
    ensures Good(Opened(u, i), x, owed, unfinished) && Reaped(u, Opened(u, i)) && i in Opened(u, i).inodes
    ensures i in Opened(u, i).files && (i !in u.files ==> !Opened(u, i).files[i].dirty)
  {
    hide LinksOf, Count, HasDots, Exact, Dotted, Wired, Cached, AllLinks, Nlink, Opened;
    var v := Opened(u, i);
    OpenedWired(u, i);
    OpenedCached(u, i);
    OpenedView(u, i);
    UnfinishedHeld(u, unfinished);
    GoodAfter(u, v, x, owed, unfinished);
  }

  lemma OpenedView(u: Tables, i: nat)
    requires i in u.files || i in u.inodes
    ensures var v := Opened(u, i);
      && v.inodes == u.inodes && v.dirRefs == u.dirRefs && AllLinks(v) == AllLinks(u) && i in v.files
        && v.fileRefs[i] > 0 && (i !in u.files ==> !v.files[i].dirty)
      && forall j ::
           Nlink(v, j) == Nlink(u, j) && (Held(u, j) ==> Held(v, j)) && (j in v.files ==> j in u.files || Held(v, j))
  {
    hide LinksOf;
  }

  lemma OpenedWired(u: Tables, i: nat)
    requires Wired(u) && (i in u.files || i in u.inodes)
    ensures Wired(Opened(u, i))
  {
  }

  lemma OpenedCached(u: Tables, i: nat)
    requires Cached(u) && (i in u.files || i in u.inodes)
    ensures Cached(Opened(u, i)) && i in u.inodes
  {
  }

  lemma DropFileGood(t: Tables, unfinished: set<nat>, i: nat)
    requires Good(t, 0, 0, unfinished) && t.fileRefs[i] > 0
    ensures Good(DropFile(t, i), 0, 0, unfinished) && Reaped(t, DropFile(t, i))
  {
    hide LinksOf, Count, HasDots, Exact, Dotted, Wired, Cached, AllLinks, Nlink;
    var u := DropFile(t, i);
    DropFileWired(t, i);
    SameView(t, u);
    UnfinishedHeld(t, unfinished);
    GoodAfter(t, u, 0, 0, unfinished);
  }

  lemma DropFileWired(t: Tables, i: nat)
    requires Wired(t) && t.fileRefs[i] > 0
    ensures Wired(DropFile(t, i))
  {
    var u := DropFile(t, i);
    assert forall j :: j in t.closeFiles ==> j in u.closeFiles;
    assert i in u.closeFiles;
  }

  lemma DropDirGood(t: Tables, unfinished: set<nat>, d: nat)
    requires Good(t, 0, 0, unfinished) && t.dirRefs[d] > 0 && (d in unfinished ==> t.dirRefs[d] > 1)
    ensures Good(DropDir(t, d), 0, 0, unfinished) && Reaped(t, DropDir(t, d))
  {
    hide LinksOf, Count, HasDots, Exact, Dotted, Wired, Cached, AllLinks, Nlink;
    var u := DropDir(t, d);
    DropDirWired(t, d);
    SameView(t, u);
    UnfinishedHeld(t, unfinished);
    GoodAfter(t, u, 0, 0, unfinished);
  }

  lemma DropDirWired(t: Tables, d: nat)
    requires Wired(t) && t.dirRefs[d] > 0
    ensures Wired(DropDir(t, d))
  {
    var u := DropDir(t, d);
    assert forall j :: j in t.closeDirs ==> j in u.closeDirs;
    assert d in u.closeDirs;
  }

  /** A new directory handle. */
  lemma OpenDirGood(t: Tables, unfinished: set<nat>, d: nat)
    requires Good(t, 0, 0, unfinished) && IsDir(t, d)
      && (Nlink(t, d) > 0 || d !in t.files || t.dirRefs[d] > 0 || t.fileRefs[d] > 0)
    ensures var o := OpenDir(t, d);
      && o.r == Ok(()) && Good(o.t, 0, 0, unfinished) && Reaped(t, o.t)
      && d in o.t.dirs && d in o.t.inodes && o.t.dirRefs == t.dirRefs + multiset{d} && o.t.fileRefs == t.fileRefs
  {
    hide AllLinks, LinksOf, Count, HasDots, Exact, Dotted, CloseDirs, Cached, Wired, Open;
    CloseDirsGood(t, unfinished);
    RefsOpen(t);
    var u := CloseDirs(t);
    if d in u.dirs {
      AddDirRef(u, unfinished, d);
      ReapedTrans(t, u, OpenDir(t, d).t);
    } else {
      OpenGood(u, 0, 0, unfinished, d);
      var v := Open(u, d).t;
      KindKept(v, d);
      LoadDir(v, unfinished, d);
      ReapedTrans(t, u, v);
      ReapedTrans(t, v, OpenDir(t, d).t);
    }
  }

  lemma AddDirRef(u: Tables, unfinished: set<nat>, d: nat)
    requires Good(u, 0, 0, unfinished) && d in u.dirs
    ensures var v := u.(dirRefs := u.dirRefs + multiset{d});
      Good(v, 0, 0, unfinished) && Reaped(u, v) && d in v.inodes
  {
    hide LinksOf, Count, HasDots, Exact, AllLinks, Nlink;
    var v := u.(dirRefs := u.dirRefs + multiset{d});
    SameView(u, v);
    GoodAfter(u, v, 0, 0, unfinished);
  }

  lemma KindKept(v: Tables, d: nat)
    requires Cached(v) && IsDir(v, d) && d in v.files
    ensures v.files[d].isDir && d in v.stored
  {
  }

  /** `read_fully` and the insertion into the directory table, which takes over the file handle. */
  function Loaded(v: Tables, d: nat): Tables
    requires d in v.stored
  {
    v.(fileRefs := v.fileRefs - multiset{d}, dirRefs := v.dirRefs + multiset{d},
       dirs := v.dirs[d := MemDir(v.stored[d], false)])
  }

  lemma LoadDir(v: Tables, unfinished: set<nat>, d: nat)
    requires Good(v, 0, 0, unfinished) && d in v.files && v.files[d].isDir && d in v.stored && d !in v.dirs
    requires v.fileRefs[d] > 0
    ensures Good(Loaded(v, d), 0, 0, unfinished) && Reaped(v, Loaded(v, d))
  {
    hide LinksOf, Count, HasDots, Exact, Wired, Cached;
    var w := Loaded(v, d);
    SameLinks(v.stored, v.dirs, w.stored, w.dirs);
    LoadWired(v, d);
    LoadCached(v, d);
    GoodAfter(v, w, 0, 0, unfinished);
  }

  lemma LoadWired(v: Tables, d: nat)
    requires Wired(v) && d in v.files && v.files[d].isDir && d in v.stored && d !in v.dirs && v.fileRefs[d] > 0
    ensures Wired(Loaded(v, d))
  {
  }

  lemma LoadCached(v: Tables, d: nat)
    requires Cached(v) && d in v.stored
    ensures Cached(Loaded(v, d))
  {
  }

  // ----- Links and counts move together -----

  /** Adding entry `name` of `d`. */
  lemma LinksWith(stored: map<nat, map<Name, nat>>, dirs: map<nat, MemDir>, d: nat, name: Name, i: nat)
    requires d in dirs && d in stored && name !in dirs[d].entries
    ensures var after := dirs[d := MemDir(dirs[d].entries[name := i], true)];
      && (d, name) !in LinksOf(stored, dirs)
      && LinksOf(stored, after) == LinksOf(stored, dirs)[(d, name) := i]
  {
    var after := dirs[d := MemDir(dirs[d].entries[name := i], true)];
    EntriesNow(stored, dirs, d, dirs[d].entries[name := i]);
    hide EntriesOf;
    forall k: Key
      ensures k in LinksOf(stored, after) <==> k in LinksOf(stored, dirs)[(d, name) := i]
      ensures k in LinksOf(stored, after) ==> LinksOf(stored, after)[k] == LinksOf(stored, dirs)[(d, name) := i][k]
    {
      assert k == (k.0, k.1);
    }
  }

  /** Removing entry `name` of `d`. */
  lemma LinksLess(stored: map<nat, map<Name, nat>>, dirs: map<nat, MemDir>, d: nat, name: Name)
    requires d in dirs && d in stored && name in dirs[d].entries
    ensures var after := dirs[d := MemDir(dirs[d].entries - {name}, true)];
      && (d, name) in LinksOf(stored, dirs) && LinksOf(stored, dirs)[(d, name)] == dirs[d].entries[name]
      && LinksOf(stored, after) == LinksOf(stored, dirs) - {(d, name)}
  {
    var after := dirs[d := MemDir(dirs[d].entries - {name}, true)];
    EntriesNow(stored, dirs, d, dirs[d].entries - {name});
    hide EntriesOf;
    forall k: Key
      ensures k in LinksOf(stored, after) <==> k in LinksOf(stored, dirs) - {(d, name)}
      ensures k in LinksOf(stored, after) ==> LinksOf(stored, after)[k] == LinksOf(stored, dirs)[k]
    {
      assert k == (k.0, k.1);
    }
  }

  lemma EntriesNow(stored: map<nat, map<Name, nat>>, dirs: map<nat, MemDir>, d: nat, entries: map<Name, nat>)
    requires d in dirs
    ensures var after := dirs[d := MemDir(entries, true)];
      && EntriesOf(stored, after, d) == entries && EntriesOf(stored, dirs, d) == dirs[d].entries
      && forall e :: e != d ==> EntriesOf(stored, after, e) == EntriesOf(stored, dirs, e)
  {
  }

  /** Changing the entries of an open directory in memory. */
  lemma EntriesKept(t: Tables, d: nat, entries: map<Name, nat>)
    requires Wired(t) && Cached(t) && d in t.dirs
    ensures Wired(WithEntries(t, d, entries)) && Cached(WithEntries(t, d, entries)) && d in t.stored
    ensures forall i :: Survives(WithEntries(t, d, entries), i) <==> Survives(t, i)
  {
    hide Wired, Cached, Survives;
    DirIsStored(t, d);
    EntriesWired(t, d, entries);
    EntriesCached(t, d, entries);
    EntriesSurvive(t, d, entries);
  }

  lemma EntriesWired(t: Tables, d: nat, entries: map<Name, nat>)
    requires Wired(t) && d in t.dirs
    ensures Wired(WithEntries(t, d, entries))
  {
  }

  lemma EntriesCached(t: Tables, d: nat, entries: map<Name, nat>)
    requires Cached(t) && d in t.dirs
    ensures Cached(WithEntries(t, d, entries))
  {
  }

  lemma EntriesSurvive(t: Tables, d: nat, entries: map<Name, nat>)
    requires d in t.dirs
    ensures forall i :: Survives(WithEntries(t, d, entries), i) <==> Survives(t, i)
  {
  }

  /** After an entry is added its inode is owed one link. */
  lemma AddedEntry(t: Tables, unfinished: set<nat>, i: nat, d: nat, name: Name)
    requires Good(t, 0, 0, unfinished) && d in t.dirs && name !in t.dirs[d].entries && Survives(t, i)
    requires d in unfinished || HasDots(AllLinks(t), d)
    ensures var u := WithEntries(t, d, t.dirs[d].entries[name := i]);
      && Good(u, i, 1, unfinished) && Survives(u, i) && AllLinks(u) == AllLinks(t)[(d, name) := i]
      && (d, name) !in AllLinks(t)
  {
    hide LinksOf, Count, Wired, Cached, Nlink, Survives, AllLinks, WithEntries, Exact, HasDots;
    var u := WithEntries(t, d, t.dirs[d].entries[name := i]);
    EntriesKept(t, d, t.dirs[d].entries[name := i]);
    AddedLinks(t, d, name, i);
    SurvivesLive(t, i);
    AddedExact(t, u, (d, name), i);
    AddedDots(AllLinks(t), (d, name), i);
  }

  lemma AddedLinks(t: Tables, d: nat, name: Name, i: nat)
    requires d in t.dirs && d in t.stored && name !in t.dirs[d].entries
    ensures var u := WithEntries(t, d, t.dirs[d].entries[name := i]);
      && (d, name) !in AllLinks(t) && AllLinks(u) == AllLinks(t)[(d, name) := i]
      && u.files == t.files && u.inodes == t.inodes && u.dirRefs == t.dirRefs
  {
    hide LinksOf;
    LinksWith(t.stored, t.dirs, d, name, i);
  }

  lemma AddedExact(t: Tables, u: Tables, k: Key, i: nat)
    requires Exact(t, 0, 0) && i in t.inodes && k !in AllLinks(t) && AllLinks(u) == AllLinks(t)[k := i]
    requires u.files == t.files && u.inodes == t.inodes
    ensures Exact(u, i, 1)
  {
    hide AllLinks, Count, Nlink;
    forall j | j in u.inodes
      ensures Count(AllLinks(u), j) == Nlink(u, j) + (if j == i then 1 else 0)
    {
      CountAdd(AllLinks(t), k, i, j);
      SameNlink(t, u, j);
    }
  }

  lemma AddedDots(links: map<Key, nat>, k: Key, i: nat)
    requires k !in links
    ensures forall d :: HasDots(links, d) ==> HasDots(links[k := i], d)
  {
  }

  lemma SurvivesLive(t: Tables, i: nat)
    requires Survives(t, i)
    ensures i in t.inodes
  {
  }

  lemma SameNlink(t: Tables, u: Tables, j: nat)
    requires u.files == t.files && u.inodes == t.inodes
    ensures Nlink(u, j) == Nlink(t, j)
  {
  }

  /** After an entry is removed its inode has one link too many. */
  lemma RemovedEntry(t: Tables, unfinished: set<nat>, d: nat, name: Name)
    requires Good(t, 0, 0, unfinished) && d in t.dirs && name in t.dirs[d].entries
    requires d in unfinished || !IsDot(name)
    ensures var i := t.dirs[d].entries[name];
      var u := WithEntries(t, d, t.dirs[d].entries - {name});
      && Good(u, i, -1, unfinished) && Nlink(u, i) > 0 && i in u.inodes && Survives(u, i)
      && (d, name) in AllLinks(t) && AllLinks(t)[(d, name)] == i && AllLinks(u) == AllLinks(t) - {(d, name)}
  {
    hide LinksOf, Count, Wired, Cached, Nlink, AllLinks, WithEntries, Exact;
    var i := t.dirs[d].entries[name];
    var u := WithEntries(t, d, t.dirs[d].entries - {name});
    EntriesKept(t, d, t.dirs[d].entries - {name});
    RemovedLinks(t, d, name);
    RemovedExact(t, u, (d, name));
  }

  lemma RemovedLinks(t: Tables, d: nat, name: Name)
    requires d in t.dirs && d in t.stored && name in t.dirs[d].entries
    ensures var u := WithEntries(t, d, t.dirs[d].entries - {name});
      && (d, name) in AllLinks(t) && AllLinks(t)[(d, name)] == t.dirs[d].entries[name]
      && AllLinks(u) == AllLinks(t) - {(d, name)}
      && u.files == t.files && u.inodes == t.inodes && u.dirRefs == t.dirRefs
  {
    hide LinksOf;
    LinksLess(t.stored, t.dirs, d, name);
  }

  lemma RemovedExact(t: Tables, u: Tables, k: Key)
    requires Exact(t, 0, 0) && k in AllLinks(t) && AllLinks(u) == AllLinks(t) - {k}
    requires u.files == t.files && u.inodes == t.inodes
    ensures var i := AllLinks(t)[k]; Exact(u, i, -1) && i in u.inodes && Nlink(u, i) > 0
  {
    hide AllLinks, Count, Nlink;
    var i := AllLinks(t)[k];
    CountPositive(AllLinks(t), k);
    forall j | j in u.inodes
      ensures Count(AllLinks(u), j) == Nlink(u, j) + (if j == i then -1 else 0)
    {
      CountRemove(AllLinks(t), k, j);
      SameNlink(t, u, j);
    }
  }

  /** The owed change of the link count settles the debt. */
  lemma SettleCount(t: Tables, unfinished: set<nat>, i: nat, owed: int, n: nat)
    requires Good(t, i, owed, unfinished) && i in t.files && n == t.files[i].nlink + owed
    ensures Good(WithNlink(t, i, n), 0, 0, unfinished) && AllLinks(WithNlink(t, i, n)) == AllLinks(t)
  {
    hide LinksOf, Count, HasDots;
    var u := WithNlink(t, i, n);
    NlinkWired(t, i, n);
    NlinkCached(t, i, n);
  }

  lemma NlinkWired(t: Tables, i: nat, n: nat)
    requires Wired(t) && i in t.files
    ensures Wired(WithNlink(t, i, n))
  {
  }

  lemma NlinkCached(t: Tables, i: nat, n: nat)
    requires Cached(t) && i in t.files
    ensures Cached(WithNlink(t, i, n))
  {
  }

  /** Handle counts apart from one handle on `d`. */
  predicate OneLess(t: Tables, u: Tables, d: nat) {
    u.dirRefs == t.dirRefs - multiset{d} && u.fileRefs == t.fileRefs
  }

  /** Counts of inodes that keep theirs. */
  ghost predicate CountsExcept(t: Tables, u: Tables, i: nat) {
    && (forall j :: j in u.inodes ==> j in t.inodes && u.inodes[j].isDir == t.inodes[j].isDir)
    && (forall j :: j in u.inodes && j != i ==> Nlink(u, j) == Nlink(t, j))
    && (forall j :: j in t.inodes && j != i && Nlink(t, j) > 0 ==> j in u.inodes)
  }

  lemma CountsTrans(t: Tables, u: Tables, v: Tables, i: nat)
    requires CountsExcept(t, u, i) && CountsExcept(u, v, i)
    ensures CountsExcept(t, v, i)
  {
    hide Nlink;
  }

  lemma ReapedCounts(t: Tables, u: Tables, i: nat)
    requires Reaped(t, u)
    ensures CountsExcept(t, u, i) && AllLinks(u) == AllLinks(t)
    ensures i in u.inodes ==> i in t.inodes && Nlink(u, i) == Nlink(t, i)
  {
    hide Nlink, AllLinks;
  }

  lemma EntriesCounts(t: Tables, d: nat, entries: map<Name, nat>, i: nat)
    ensures var u := WithEntries(t, d, entries);
      && CountsExcept(t, u, i) && Nlink(u, i) == Nlink(t, i) && u.inodes == t.inodes
      && u.fileRefs == t.fileRefs && u.dirRefs == t.dirRefs
  {
  }

  lemma NlinkCounts(v: Tables, i: nat, n: nat)
    requires i in v.files && i in v.inodes
    ensures var u := WithNlink(v, i, n);
      && CountsExcept(v, u, i) && Nlink(v, i) == v.files[i].nlink && Nlink(u, i) == n && u.inodes == v.inodes
      && u.fileRefs == v.fileRefs && u.dirRefs == v.dirRefs
  {
  }

  lemma Known(t: Tables, x: nat, owed: int, unfinished: set<nat>, i: nat)
    requires Good(t, x, owed, unfinished) && i in t.files
    ensures i in t.inodes && Nlink(t, i) == t.files[i].nlink
  {
  }

  /** The end of `link` and `unlink`: the count is set and both handles are dropped. */
  function Adjusted(v: Tables, i: nat, n: nat, parent: nat): Tables
    requires i in v.files
  {
    DropDir(DropFile(WithNlink(v, i, n), i), parent)
  }

  lemma AdjustGood(v: Tables, unfinished: set<nat>, i: nat, owed: int, n: nat, parent: nat)
    requires Good(v, i, owed, unfinished) && i in v.files && v.fileRefs[i] > 0 && n == v.files[i].nlink + owed
    requires v.dirRefs[parent] > (if parent in unfinished then 1 else 0)
    ensures var w := Adjusted(v, i, n, parent);
      && Good(w, 0, 0, unfinished) && AllLinks(w) == AllLinks(v) && CountsExcept(v, w, i) && i in w.inodes
      && Nlink(w, i) == Nlink(v, i) + owed
      && w.fileRefs == v.fileRefs - multiset{i} && w.dirRefs == v.dirRefs - multiset{parent}
  {
    hide LinksOf, Count, Wired, Cached, HasDots, Exact, Dotted, AllLinks, Survives, Good, Nlink, CountsExcept, Reaped,
      WithNlink;
    var u := WithNlink(v, i, n);
    Known(v, i, owed, unfinished, i);
    SettleCount(v, unfinished, i, owed, n);
    NlinkCounts(v, i, n);
    DropFileGood(u, unfinished, i);
    ReapedCounts(u, DropFile(u, i), i);
    DropDirGood(DropFile(u, i), unfinished, parent);
    ReapedCounts(DropFile(u, i), Adjusted(v, i, n, parent), i);
    CountsTrans(v, u, DropFile(u, i), i);
    CountsTrans(v, DropFile(u, i), Adjusted(v, i, n, parent), i);
  }

  /** The part of `link` and `unlink` after the entry is changed. */
  lemma ChangedGood(t: Tables, u: Tables, unfinished: set<nat>, i: nat, owed: int, parent: nat)
    requires Good(u, i, owed, unfinished) && Survives(u, i) && Nlink(u, i) + owed >= 0
    requires CountsExcept(t, u, i) && u.fileRefs == t.fileRefs && u.dirRefs == t.dirRefs
    requires t.dirRefs[parent] > (if parent in unfinished then 1 else 0)
    ensures var o := Open(u, i);
      && o.r == Ok(()) && i in o.t.files && o.t.files[i].nlink == Nlink(u, i)
      && var w := Adjusted(o.t, i, o.t.files[i].nlink + owed, parent);
      && Good(w, 0, 0, unfinished) && AllLinks(w) == AllLinks(u) && CountsExcept(t, w, i) && i in w.inodes
      && Nlink(w, i) == Nlink(u, i) + owed && OneLess(t, w, parent)
  {
    hide LinksOf, Count, Wired, Cached, HasDots, Exact, Dotted, Open, AllLinks, Survives, Good, Nlink, CountsExcept,
      Reaped, Adjusted;
    OpenGood(u, i, owed, unfinished, i);
    var v := Open(u, i).t;
    ReapedCounts(u, v, i);
    Known(v, i, owed, unfinished, i);
    AdjustGood(v, unfinished, i, owed, v.files[i].nlink + owed, parent);
    var w := Adjusted(v, i, v.files[i].nlink + owed, parent);
    CountsTrans(t, u, v, i);
    CountsTrans(t, v, w, i);
  }

  lemma LinkIs(t: Tables, i: nat, parent: nat, name: Name)
    requires parent in t.dirs
    ensures var entries := t.dirs[parent].entries;
      if name in entries then Link(t, i, parent, name)
        == Out(DropDir(WithEntries(t, parent, entries), parent), Err(AlreadyExists))
      else
        var o := Open(WithEntries(t, parent, entries[name := i]), i);
        (o.r == Ok(()) && i in o.t.files) ==>
          Link(t, i, parent, name) == Out(Adjusted(o.t, i, o.t.files[i].nlink + 1, parent), Ok(()))
  {
    hide Open, DropDir, DropFile, WithEntries, WithNlink;
  }

  lemma UnlinkIs(t: Tables, parent: nat, name: Name)
    requires parent in t.dirs
    ensures var entries := t.dirs[parent].entries;
      if name !in entries then Unlink(t, parent, name) == Out(DropDir(t, parent), Ok(()))
      else
        var i := entries[name];
        var o := Open(WithEntries(t, parent, entries - {name}), i);
        (o.r == Ok(()) && i in o.t.files && o.t.files[i].nlink > 0) ==>
          Unlink(t, parent, name) == Out(Adjusted(o.t, i, o.t.files[i].nlink - 1, parent), Ok(()))
  {
    hide Open, DropDir, DropFile, WithEntries, WithNlink;
  }

  /** One entry and one count more, or the name is taken and neither changes; the handle on the parent is gone. */
  ghost predicate AddLinkEffect(t: Tables, o: Out<()>, unfinished: set<nat>, i: nat, parent: nat, name: Name) {
    && Good(o.t, 0, 0, unfinished) && OneLess(t, o.t, parent) && CountsExcept(t, o.t, i)
    && if (parent, name) in AllLinks(t) then
         o.r == Err(AlreadyExists) && AllLinks(o.t) == AllLinks(t) && Reaped(t, o.t)
       else
         && o.r == Ok(()) && AllLinks(o.t) == AllLinks(t)[(parent, name) := i]
         && i in o.t.inodes && Nlink(o.t, i) == Nlink(t, i) + 1
  }

  /** `link` adds exactly one entry and one count, or reports that the name is taken. */
  lemma LinkGood(t: Tables, unfinished: set<nat>, i: nat, parent: nat, name: Name)
    requires Good(t, 0, 0, unfinished) && Survives(t, i) && parent in t.dirs
    requires t.dirRefs[parent] > (if parent in unfinished then 1 else 0)
    requires parent in unfinished || HasDots(AllLinks(t), parent)
    ensures AddLinkEffect(t, Link(t, i, parent, name), unfinished, i, parent, name)
  {
    hide LinksOf, Count, Wired, Cached, HasDots, Exact, Dotted, Open, AllLinks, Survives, Good, Nlink, CountsExcept,
      Reaped, WithEntries, Link, Adjusted, DropDir;
    EntryListed(t, unfinished, parent, name);
    LinkIs(t, i, parent, name);
    var entries := t.dirs[parent].entries;
    if name in entries {
      TakenGood(t, unfinished, parent, i);
    } else {
      AddedEntry(t, unfinished, i, parent, name);
      EntriesCounts(t, parent, entries[name := i], i);
      ChangedGood(t, WithEntries(t, parent, entries[name := i]), unfinished, i, 1, parent);
    }
  }

  lemma TakenGood(t: Tables, unfinished: set<nat>, parent: nat, i: nat)
    requires Good(t, 0, 0, unfinished) && parent in t.dirs
    requires t.dirRefs[parent] > (if parent in unfinished then 1 else 0)
    ensures var w := DropDir(WithEntries(t, parent, t.dirs[parent].entries), parent);
      Good(w, 0, 0, unfinished) && Reaped(t, w) && OneLess(t, w, parent) && CountsExcept(t, w, i)
        && AllLinks(w) == AllLinks(t)
  {
    hide LinksOf, Count, Wired, Cached, HasDots, Exact, Dotted, AllLinks, Good, Nlink, CountsExcept, Reaped;
    SameEntries(t, unfinished, parent);
    var u := WithEntries(t, parent, t.dirs[parent].entries);
    DropDirGood(u, unfinished, parent);
    ReapedTrans(t, u, DropDir(u, parent));
    ReapedCounts(t, DropDir(u, parent), i);
  }

  lemma EntryListed(t: Tables, unfinished: set<nat>, d: nat, name: Name)
    requires Good(t, 0, 0, unfinished) && d in t.dirs
    ensures (d, name) in AllLinks(t) <==> name in t.dirs[d].entries
    ensures (d, name) in AllLinks(t) ==> AllLinks(t)[(d, name)] == t.dirs[d].entries[name]
  {
    DirIsStored(t, d);
  }

  /** Setting only the dirty mark, as a failed `add_entry` does. */
  lemma SameEntries(t: Tables, unfinished: set<nat>, d: nat)
    requires Good(t, 0, 0, unfinished) && d in t.dirs
    ensures var u := WithEntries(t, d, t.dirs[d].entries);
      Good(u, 0, 0, unfinished) && Reaped(t, u)
  {
    hide LinksOf, Count, Wired, Cached, HasDots, Exact;
    var u := WithEntries(t, d, t.dirs[d].entries);
    EntriesKept(t, d, t.dirs[d].entries);
    SameLinks(t.stored, t.dirs, u.stored, u.dirs);
    GoodAfter(t, u, 0, 0, unfinished);
  }

  /** The entry and one count of the inode it named less, if there is one; the handle on the parent is gone. */
  ghost predicate RemoveLinkEffect(t: Tables, o: Out<()>, unfinished: set<nat>, parent: nat, name: Name) {
    && o.r == Ok(()) && Good(o.t, 0, 0, unfinished) && OneLess(t, o.t, parent)
    && if (parent, name) in AllLinks(t) then
         var i := AllLinks(t)[(parent, name)];
         && AllLinks(o.t) == AllLinks(t) - {(parent, name)} && CountsExcept(t, o.t, i)
         && Nlink(t, i) > 0 && i in o.t.inodes && Nlink(o.t, i) == Nlink(t, i) - 1
       else AllLinks(o.t) == AllLinks(t) && Reaped(t, o.t)
  }

  /** `unlink` removes exactly the entry and one count of the inode it named; the count is positive before. */
  lemma UnlinkGood(t: Tables, unfinished: set<nat>, parent: nat, name: Name)
    requires Good(t, 0, 0, unfinished) && parent in t.dirs
    requires t.dirRefs[parent] > (if parent in unfinished then 1 else 0)
    requires parent in unfinished || !IsDot(name)
    ensures RemoveLinkEffect(t, Unlink(t, parent, name), unfinished, parent, name)
  {
    hide LinksOf, Count, Wired, Cached, HasDots, Exact, Dotted, Open, AllLinks, Survives, Good, Nlink, CountsExcept,
      Reaped, WithEntries, Unlink, Adjusted;
    EntryListed(t, unfinished, parent, name);
    UnlinkIs(t, parent, name);
    var entries := t.dirs[parent].entries;
    if name !in entries {
      DropDirGood(t, unfinished, parent);
      ReapedCounts(t, DropDir(t, parent), 0);
    } else {
      var i := entries[name];
      RemovedEntry(t, unfinished, parent, name);
      EntriesCounts(t, parent, entries - {name}, i);
      ChangedGood(t, WithEntries(t, parent, entries - {name}), unfinished, i, -1, parent);
    }
  }

  /** A new inode that no entry names and that has none. */
  ghost predicate MakeNodeEffect(t: Tables, u: Tables, unfinished: set<nat>, i: nat, isDir: bool) {
    && Good(u, 0, 0, unfinished) && AllLinks(u) == AllLinks(t) && Survives(u, i) && i !in u.files && Nlink(u, i) == 0
    && (IsDir(u, i) <==> isDir) && CountsExcept(u, t, i) && SameHandles(t, u)
    && (forall k :: k in AllLinks(u) ==> k.0 != i && AllLinks(u)[k] != i)
  }

  /** A new inode has no links and no entries. */
  lemma MknodGood(t: Tables, unfinished: set<nat>, i: nat, isDir: bool)
    requires Good(t, 0, 0, unfinished) && i !in t.inodes
    ensures MakeNodeEffect(t, Mknod(t, Some(i), isDir).t, unfinished, i, isDir)
  {
    hide LinksOf, Count, HasDots, Wired, Cached, Mknod, AllLinks, Nlink, Survives;
    var u := Mknod(t, Some(i), isDir).t;
    NewInode(t, i, isDir);
    NewCounts(t, i, isDir);
    forall k | k in AllLinks(t)
      ensures k.0 != i
    {
      LinkStored(t, k);
    }
    NotNamed(AllLinks(t), i);
  }

  lemma NewCounts(t: Tables, i: nat, isDir: bool)
    requires i !in t.inodes && i !in t.files && i !in t.dirs && i !in t.stored
    ensures var u := Mknod(t, Some(i), isDir).t;
      && AllLinks(u) == AllLinks(t) && SameHandles(t, u) && u.files == t.files
      && Survives(u, i) && Nlink(u, i) == 0 && (IsDir(u, i) <==> isDir)
      && u.inodes.Keys == t.inodes.Keys + {i}
      && forall j :: j in t.inodes ==> Nlink(u, j) == Nlink(t, j) && u.inodes[j] == t.inodes[j]
  {
    hide LinksOf;
    if isDir {
      LinksEmpty(t.stored, t.dirs, i);
    }
  }

  lemma NotNamed(links: map<Key, nat>, i: nat)
    requires forall k :: k in links ==> links[k] != i
    ensures Count(links, i) == 0
  {
    assert Naming(links, i) == {};
  }

  lemma LinkStored(t: Tables, k: Key)
    requires k in AllLinks(t)
    ensures k.0 in t.stored
  {
  }

  lemma NewInode(t: Tables, i: nat, isDir: bool)
    requires Wired(t) && Cached(t) && i !in t.inodes
    ensures var u := Mknod(t, Some(i), isDir).t; Wired(u) && Cached(u)
    ensures i !in t.files && i !in t.dirs && i !in t.stored
  {
    assert i !in t.files && i !in t.dirs && !IsDir(t, i);
    NewWired(t, i, isDir);
    NewCached(t, i, isDir);
  }

  lemma NewWired(t: Tables, i: nat, isDir: bool)
    requires Wired(t)
    ensures Wired(Mknod(t, Some(i), isDir).t)
  {
  }

  lemma NewCached(t: Tables, i: nat, isDir: bool)
    requires Cached(t) && i !in t.inodes && i !in t.dirs
    ensures Cached(Mknod(t, Some(i), isDir).t)
  {
  }

  lemma LinksEmpty(stored: map<nat, map<Name, nat>>, dirs: map<nat, MemDir>, d: nat)
    requires d !in stored && d !in dirs
    ensures LinksOf(stored[d := map[]], dirs) == LinksOf(stored, dirs)
  {
    forall k: Key
      ensures k in LinksOf(stored[d := map[]], dirs) <==> k in LinksOf(stored, dirs)
    {
      assert k == (k.0, k.1);
    }
  }
}
