/**
 Calls on handles that are already open (ops.rs): reads and writes, `flush`, `fsync`, `fsyncdir`, and the calls that
 change attributes. They touch no entry and no link count, but marks, the disk and the pending lists: each call gets a
 clone of the handle, and dropping the clone makes the inode pending.
 */
module Syncing {
  import opened Results
  import opened Links
  import opened Tables
  import opened Operations

  /** A clone of a file handle was passed and dropped. */
  function Passed(t: Tables, i: nat): Tables {
    t.(closeFiles := t.closeFiles + [i])
  }

  function PassedDir(t: Tables, d: nat): Tables {
    t.(closeDirs := t.closeDirs + [d])
  }

  /** The dirty mark that writes, `setattr` and `setxattr` set. */
  function Marked(t: Tables, i: nat): (u: Tables)
    ensures SameHandles(t, u) && u.files.Keys == t.files.Keys
    ensures i in t.files ==> u.files[i].dirty
  {
    if i in t.files then t.(files := t.files[i := t.files[i].(dirty := true)]) else t
  }

  /** `fsync`, and with `datasync` unset also `flush`. */
  function Fsync(t: Tables, i: nat, datasync: bool): Tables {
    Passed(if !datasync && i in t.files then FlushFile(t, i) else t, i)
  }

  /** `fsyncdir`: the directory, then its file as in `fsync`. */
  function FsyncDir(t: Tables, d: nat, datasync: bool): Tables {
    var u := if d in t.dirs && d in t.files then FlushDir(t, d) else t;
    PassedDir(Fsync(u, d, datasync), d)
  }

  /** `setattr` with or without a handle. */
  function SetAttr(t: Tables, i: nat, held: bool): Tables {
    if held then Passed(GetAttr(Marked(t, i), i).t, i)
    else
      var o := Open(t, i);
      if o.r.Err? then o.t else DropFile(GetAttr(Marked(o.t, i), i).t, i)
  }

  /** The attribute calls; `listxattr` has no name to be too long. */
  function XattrOp(t: Tables, i: nat, name: Name, change: bool): Tables {
    if |name| > MAX_NAMELEN then t
    else
      var o := Open(t, i);
      if o.r.Err? then o.t else DropFile(if change then Marked(o.t, i) else o.t, i)
  }

  /** Between operations again, with the same entries, counts and handles. */
  ghost predicate Kept(t: Tables, u: Tables) {
    Settled(u) && SameRefs(t, u) && Reaped(t, u)
  }

  /** The link count on disk is the one in memory, unless the file is unlinked. */
  predicate InodeStored(t: Tables, i: nat) {
    i in t.files && i in t.inodes && (Nlink(t, i) > 0 ==> !t.files[i].dirty && t.inodes[i].nlink == Nlink(t, i))
  }

  /** The entries on disk are those in memory. */
  predicate EntriesStored(t: Tables, d: nat) {
    d in t.dirs && d in t.stored && !t.dirs[d].dirty && t.stored[d] == t.dirs[d].entries
  }

  lemma KeptTrans(t: Tables, u: Tables, v: Tables)
    requires Kept(t, u) && Kept(u, v)
    ensures Kept(t, v)
  {
    hide Good, Reaped;
    ReapedTrans(t, u, v);
  }

  /** What a step that leaves the handles alone must show. */
  lemma KeptBy(t: Tables, u: Tables)
    requires Settled(t) && SameRefs(t, u) && Reaped(t, u) && Wired(u) && Cached(u)
    ensures Kept(t, u)
  {
    hide Good, Reaped, Wired, Cached;
    GoodAfter(t, u, 0, 0, {});
  }

  lemma PassedKept(t: Tables, i: nat)
    requires Settled(t)
    ensures Kept(t, Passed(t, i)) && Kept(t, PassedDir(t, i))
  {
    hide Reaped, AllLinks, Exact, Dotted, Cached;
    SameView(t, Passed(t, i));
    SameView(t, PassedDir(t, i));
    KeptBy(t, Passed(t, i));
    KeptBy(t, PassedDir(t, i));
  }

  /** The tables hold the same files, directories and handles. */
  lemma WiredSame(t: Tables, u: Tables)
    requires Wired(t) && SameRefs(t, u) && u.closeFiles == t.closeFiles && u.closeDirs == t.closeDirs
    requires u.files.Keys == t.files.Keys && u.dirs.Keys == t.dirs.Keys
    requires forall i :: i in t.files ==> u.files[i].isDir == t.files[i].isDir
    ensures Wired(u)
  {
  }

  lemma MarkedKept(t: Tables, i: nat)
    requires Settled(t)
    ensures Kept(t, Marked(t, i))
  {
    hide AllLinks, Exact, Dotted, Count, Wired, Cached, Reaped, Kept;
    var u := Marked(t, i);
    WiredSame(t, u);
    MarkedCached(t, i);
    KeptBy(t, u);
  }

  lemma MarkedCached(t: Tables, i: nat)
    requires Cached(t)
    ensures Cached(Marked(t, i)) && Reaped(t, Marked(t, i))
  {
    hide LinksOf;
  }

  /** `flush` of a file writes its inode and changes nothing else that a call can see. */
  lemma FlushFileKept(t: Tables, i: nat)
    requires Settled(t) && i in t.files
    ensures var u := FlushFile(t, i); Kept(t, u) && SameHandles(t, u) && u.stored == t.stored && InodeStored(u, i)
  {
    hide AllLinks, Exact, Dotted, Count, Wired, Cached, Reaped, Kept, InodeStored;
    var u := FlushFile(t, i);
    WiredSame(t, u);
    FlushFileCached(t, i);
    KeptBy(t, u);
  }

  lemma FlushFileCached(t: Tables, i: nat)
    requires Cached(t) && i in t.files
    ensures var u := FlushFile(t, i); Cached(u) && Reaped(t, u) && InodeStored(u, i)
  {
    hide Cached, Reaped;
    FlushFileCache(t, i);
    FlushFileReaped(t, i);
  }

  lemma FlushFileCache(t: Tables, i: nat)
    requires Cached(t) && i in t.files
    ensures Cached(FlushFile(t, i)) && InodeStored(FlushFile(t, i), i)
  {
  }

  lemma FlushFileReaped(t: Tables, i: nat)
    requires Cached(t) && i in t.files
    ensures Reaped(t, FlushFile(t, i))
  {
    hide LinksOf;
  }

  /** `flush` of a directory stores its entries; its file is dirty afterwards if anything was written. */
  lemma FlushDirKept(t: Tables, d: nat)
    requires Settled(t) && d in t.dirs
    ensures d in t.files && Kept(t, FlushDir(t, d)) && EntriesStored(FlushDir(t, d), d)
    ensures FlushDir(t, d).dirs[d].entries == t.dirs[d].entries && d in FlushDir(t, d).files
  {
    hide AllLinks, Exact, Dotted, Count, Wired, Cached, Reaped, Kept;
    DirIsStored(t, d);
    DirsAreFiles(t);
    var u := FlushDir(t, d);
    WiredSame(t, u);
    FlushDirCached(t, d);
    FlushDirReaped(t, d);
    KeptBy(t, u);
  }

  lemma FlushDirCached(t: Tables, d: nat)
    requires Cached(t) && d in t.dirs && d in t.files && d in t.stored
    ensures Cached(FlushDir(t, d)) && EntriesStored(FlushDir(t, d), d)
  {
  }

  lemma FlushDirReaped(t: Tables, d: nat)
    requires Cached(t) && d in t.dirs && d in t.files && d in t.stored
    ensures Reaped(t, FlushDir(t, d))
  {
    hide Cached, LinksOf;
    var u := FlushDir(t, d);
    SameLinks(t.stored, t.dirs, u.stored, u.dirs);
  }

  /** After `fsync` the link count is on disk, with `datasync` nothing is written; the call shows nowhere else. */
  lemma FsyncKept(t: Tables, i: nat, datasync: bool)
    requires Settled(t) && i in t.files
    ensures Kept(t, Fsync(t, i, datasync)) && (!datasync ==> InodeStored(Fsync(t, i, datasync), i))
    ensures datasync ==> Fsync(t, i, datasync) == t.(closeFiles := t.closeFiles + [i])
  {
    hide Wired, Cached, Exact, Dotted, Kept, FlushFile, AllLinks;
    var u := if datasync then t else FlushFile(t, i);
    SelfKept(t);
    if !datasync {
      FlushFileKept(t, i);
    }
    KeptSettled(t, u);
    PassedKept(u, i);
    KeptTrans(t, u, Passed(u, i));
  }

  /** After `fsyncdir` the entries are on disk and, without `datasync`, the directory's link count. */
  lemma FsyncDirKept(t: Tables, d: nat, datasync: bool)
    requires Settled(t) && t.dirRefs[d] > 0
    ensures var u := FsyncDir(t, d, datasync);
      && Kept(t, u) && EntriesStored(u, d) && u.dirs[d].entries == EntriesOf(t.stored, t.dirs, d)
      && (if datasync then u.inodes == t.inodes else InodeStored(u, d))
  {
    hide Wired, Cached, Exact, Dotted, Kept, FlushFile, FlushDir, Fsync, AllLinks, InodeStored;
    HandleOpen(t, d);
    FlushDirKept(t, d);
    var u := FlushDir(t, d);
    FlushDirInodes(t, d);
    KeptSettled(t, u);
    FsyncKept(u, d, datasync);
    var v := Fsync(u, d, datasync);
    FsyncKeepsDir(u, d, datasync);
    KeptTrans(t, u, v);
    KeptSettled(t, v);
    PassedKept(v, d);
    KeptTrans(t, v, PassedDir(v, d));
    StillStored(v, d);
  }

  lemma FlushDirInodes(t: Tables, d: nat)
    requires d in t.dirs && d in t.files
    ensures FlushDir(t, d).inodes == t.inodes
  {
  }

  lemma FsyncKeepsDir(t: Tables, d: nat, datasync: bool)
    ensures Fsync(t, d, datasync).dirs == t.dirs && Fsync(t, d, datasync).stored == t.stored
  {
  }

  lemma StillStored(t: Tables, d: nat)
    ensures InodeStored(t, d) ==> InodeStored(PassedDir(t, d), d)
  {
  }

  lemma SelfKept(t: Tables)
    requires Settled(t)
    ensures Kept(t, t)
  {
    hide Good;
    ReapedSame(t);
  }

  lemma KeptSettled(t: Tables, u: Tables)
    requires Kept(t, u)
    ensures Settled(u) && SameRefs(t, u) && Reaped(t, u)
  {
  }

  lemma HandleOpen(t: Tables, i: nat)
    requires Wired(t)
    ensures t.fileRefs[i] > 0 ==> i in t.files
    ensures t.dirRefs[i] > 0 ==> i in t.dirs && i in t.files
  {
  }

  /** `read` and `write` through a handle. */
  lemma WriteKept(t: Tables, i: nat)
    requires Settled(t)
    ensures Kept(t, Passed(t, i)) && Kept(t, Passed(Marked(t, i), i))
  {
    hide Good, Kept, Passed, Marked;
    PassedKept(t, i);
    MarkedKept(t, i);
    KeptSettled(t, Marked(t, i));
    PassedKept(Marked(t, i), i);
    KeptTrans(t, Marked(t, i), Passed(Marked(t, i), i));
  }

  /** `getattr` while a handle on the inode is held. */
  lemma StatKept(t: Tables, i: nat)
    requires Settled(t) && Survives(t, i)
    ensures Kept(t, GetAttr(t, i).t)
  {
    hide Good, GetAttr, Reaped;
    GetAttrGood(t, {}, i);
  }

  lemma SetAttrKept(t: Tables, i: nat, held: bool)
    requires Settled(t) && (if held then t.fileRefs[i] > 0 else Live(t, i))
    ensures Kept(t, SetAttr(t, i, held))
  {
    hide Good, Kept, GetAttr, Marked, Open, Reaped, Survives, Live, Passed;
    if held {
      MarkedKept(t, i);
      var u := Marked(t, i);
      KeptSettled(t, u);
      HeldLives(u, i);
      StatKept(u, i);
      KeptTrans(t, u, GetAttr(u, i).t);
      KeptSettled(t, GetAttr(u, i).t);
      PassedKept(GetAttr(u, i).t, i);
      KeptTrans(t, GetAttr(u, i).t, Passed(GetAttr(u, i).t, i));
    } else {
      ReapedSame(t);
      LiveLater(t, t, {}, i);
      OpenGood(t, 0, 0, {}, i);
      var o := Open(t, i).t;
      MarkedKept(o, i);
      var u := Marked(o, i);
      KeptSettled(o, u);
      HeldLives(u, i);
      StatKept(u, i);
      KeptTrans(o, u, GetAttr(u, i).t);
      HandleBack(t, o, GetAttr(u, i).t, i);
    }
  }

  lemma XattrKept(t: Tables, i: nat, name: Name, change: bool)
    requires Settled(t) && Live(t, i)
    ensures Kept(t, XattrOp(t, i, name, change))
  {
    hide Good, Kept, Marked, Open, Reaped, Survives, Live;
    SelfKept(t);
    if |name| <= MAX_NAMELEN {
      ReapedSame(t);
      LiveLater(t, t, {}, i);
      OpenGood(t, 0, 0, {}, i);
      var o := Open(t, i).t;
      SelfKept(o);
      MarkedKept(o, i);
      HandleBack(t, o, if change then Marked(o, i) else o, i);
    }
  }

  // ----- What is marked and what becomes pending -----

  /** Closing pending files leaves a file alone while someone has a handle on it. */
  lemma {:induction false} HeldStays(t: Tables, i: nat)
    requires i in t.files && t.fileRefs[i] > 0
    ensures i in CloseFiles(t).files && CloseFiles(t).files[i] == t.files[i] && CloseFiles(t).fileRefs == t.fileRefs
    decreases |t.closeFiles|
  {
    hide CloseFile;
    if t.closeFiles != [] {
      HeldNotClosed(t, i);
      HeldStays(CloseFile(t), i);
    }
  }

  lemma HeldNotClosed(t: Tables, i: nat)
    requires t.closeFiles != [] && i in t.files && t.fileRefs[i] > 0
    ensures var u := CloseFile(t);
      i in u.files && u.files[i] == t.files[i] && u.fileRefs == t.fileRefs && |u.closeFiles| < |t.closeFiles|
  {
  }

  /** The mark is set and stays while `getattr` opens and drops the file once more, and the inode is pending. */
  lemma SetAttrMarks(t: Tables, i: nat, held: bool)
    requires if held then i in t.files && t.fileRefs[i] > 0 else Open(t, i).r.Ok?
    ensures var u := SetAttr(t, i, held); i in u.files && u.files[i].dirty && i in u.closeFiles
  {
    hide CloseFiles, Marked;
    if held {
      HeldStays(Marked(t, i), i);
    } else {
      HeldStays(Marked(Open(t, i).t, i), i);
    }
  }

  lemma XattrMarks(t: Tables, i: nat, name: Name, change: bool)
    requires Open(t, i).r.Ok?
    ensures var u := XattrOp(t, i, name, change);
      && (|name| > 256 ==> u == t)
      && (|name| <= 256 ==> i in u.closeFiles && i in u.files && (change ==> u.files[i].dirty))
      && (|name| <= 256 && !change ==> u.files == Open(t, i).t.files)
  {
    hide CloseFiles;
  }

  lemma FsyncPending(t: Tables, i: nat, datasync: bool)
    ensures Fsync(t, i, datasync).closeFiles == t.closeFiles + [i]
    ensures var u := FsyncDir(t, i, datasync); i in u.closeFiles && i in u.closeDirs
  {
  }

  lemma HeldLives(t: Tables, i: nat)
    requires Settled(t) && t.fileRefs[i] > 0
    ensures Survives(t, i)
  {
    hide LinksOf, Exact, Dotted, Count;
  }

  /** Dropping the handle that was opened for the call. */
  lemma HandleBack(t: Tables, o: Tables, u: Tables, i: nat)
    requires OpenEffect(t, Out(o, Ok(())), 0, 0, {}, i) && Kept(o, u)
    ensures Kept(t, DropFile(u, i))
  {
    hide Good, Reaped, DropFile;
    FileRefBack(t, u, i);
    DropFileGood(u, {}, i);
    ReapedTrans(t, o, u);
    ReapedTrans(t, u, DropFile(u, i));
  }
}
