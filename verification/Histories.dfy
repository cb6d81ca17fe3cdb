/**
 Whole histories of a mounted file system: any sequence of calls that the kernel may make keeps every link count
 exact, lets no entry and no handle refer to a destroyed inode, and leaves nothing pending after a release.
 */
module Histories {
  import opened Results
  import opened Layout
  import opened Links
  import opened Tables
  import opened Operations
  import opened Syncing
  import opened Trees
  import opened Kinds

  /** The state after a call, whether it succeeds or fails. */
  function Step(t: Tables, c: Call): Tables {
    match c
    case CallLookup(p, n) => Lookup(t, p, n).t
    case CallGetAttr(i) => GetAttr(t, i).t
    case CallMknod(s, p, n, isDir) => MknodOp(t, s, p, n, isDir).t
    case CallMkdir(s, p, n) => MkdirOp(t, s, p, n).t
    case CallLink(i, p, n) => LinkOp(t, i, p, n).t
    case CallUnlink(p, n) => UnlinkOp(t, p, n).t
    case CallRmdir(p, n) => Rmdir(t, p, n).t
    case CallRename(p, n, q, m) => Rename(t, p, n, q, m).t
    case CallOpen(i) => Open(t, i).t
    case CallClose(i) => DropFile(t, i)
    case CallOpenDir(d) => OpenDir(t, d).t
    case CallCloseDir(d) => DropDir(t, d)
    case CallRead(i) => Passed(t, i)
    case CallWrite(i) => Passed(Marked(t, i), i)
    case CallReadDir(d) => PassedDir(t, d)
    case CallFlush(i) => Fsync(t, i, false)
    case CallFsync(i, datasync) => Fsync(t, i, datasync)
    case CallFsyncDir(d, datasync) => FsyncDir(t, d, datasync)
    case CallSetAttr(i, held) => SetAttr(t, i, held)
    case CallClearBits(i) => Marked(t, i)
    case CallXattr(i, n, change) => XattrOp(t, i, n, change)
    case CallApplyReleases => ApplyReleases(t)
  }

  /**
   What the kernel guarantees: inode numbers have a link or a handle, directories are opened as such and have not been
   removed when they are changed, dot names are not given, a rename is not onto itself, and only open handles are
   used and closed; and what the allocator guarantees: it hands out a slot that holds no inode when it is called.
   */
  ghost predicate Legal(t: Tables, c: Call) {
    var links := AllLinks(t);
    match c
    case CallLookup(p, n) => Live(t, p)
    case CallGetAttr(i) => Live(t, i)
    case CallMknod(s, p, n, isDir) => HasDots(links, p) && (s.Some? ==> s.value !in OpenDir(t, p).t.inodes)
    case CallMkdir(s, p, n) => HasDots(links, p) && !IsDot(n) && (s.Some? ==> s.value !in t.inodes)
    case CallLink(i, p, n) => HasDots(links, p) && Live(t, i)
    case CallUnlink(p, n) => Live(t, p) && !IsDot(n)
    case CallRmdir(p, n) => HasDots(links, p) && !IsDot(n)
    case CallRename(p, n, q, m) => HasDots(links, p) && HasDots(links, q) && !IsDot(n) && !IsDot(m) && (p, n) != (q, m)
    case CallOpen(i) => Live(t, i) && !IsDir(t, i)
    case CallClose(i) => t.fileRefs[i] > 0
    case CallOpenDir(d) => Live(t, d)
    case CallCloseDir(d) => t.dirRefs[d] > 0
    case CallRead(i) => t.fileRefs[i] > 0
    case CallWrite(i) => t.fileRefs[i] > 0
    case CallReadDir(d) => t.dirRefs[d] > 0
    case CallFlush(i) => t.fileRefs[i] > 0
    case CallFsync(i, _) => t.fileRefs[i] > 0
    case CallFsyncDir(d, _) => t.dirRefs[d] > 0
    case CallSetAttr(i, held) => if held then t.fileRefs[i] > 0 else Live(t, i)
    case CallClearBits(i) => t.fileRefs[i] > 0
    case CallXattr(i, _, _) => Live(t, i)
    case CallApplyReleases => true
  }

  lemma StepSettled(t: Tables, c: Call)
    requires Settled(t) && Legal(t, c)
    ensures Settled(Step(t, c))
  {
    hide AllLinks, Count, Good, Live, HasDots, Lookup, GetAttr, MknodOp, MkdirOp, LinkIn, UnlinkOp, Rmdir, Rename,
      Open, OpenDir, DropFile, DropDir, ApplyReleases, Nlink, Survives, Removable, Blocked, Cleared;
    match c
    case CallLookup(p, n) => LookupGood(t, p, n);
    case CallGetAttr(i) => LiveLater(t, t, {}, i); GetAttrGood(t, {}, i);
    case CallMknod(s, p, n, isDir) => MknodOpGood(t, s, p, n, isDir);
    case CallMkdir(s, p, n) => MkdirOpGood(t, s, p, n);
    case CallLink(i, p, n) => LinkInGood(t, i, p, n);
    case CallUnlink(p, n) => UnlinkOpGood(t, {}, p, n);
    case CallRmdir(p, n) => RmdirGood(t, p, n);
    case CallRename(p, n, q, m) => RenameGood(t, p, n, q, m);
    case CallOpen(i) => LiveLater(t, t, {}, i); OpenGood(t, 0, 0, {}, i);
    case CallClose(i) => DropFileGood(t, {}, i);
    case CallOpenDir(d) => OpenDirAny(t, {}, d);
    case CallCloseDir(d) => DropDirGood(t, {}, d);
    case CallApplyReleases => ApplyReleasesGood(t);
    case _ => HandleCallKept(t, c);
  }

  /** A call on a handle: no entry, count or handle changes. */
  predicate OnHandle(c: Call) {
    c.CallRead? || c.CallWrite? || c.CallReadDir? || c.CallFlush? || c.CallFsync? || c.CallFsyncDir? || c.CallSetAttr?
    || c.CallClearBits? || c.CallXattr?
  }

  /** Such calls keep entries, counts and handles; what they store or mark dirty shows in no other call. */
  lemma HandleCallKept(t: Tables, c: Call)
    requires Settled(t) && Legal(t, c) && OnHandle(c)
    ensures Kept(t, Step(t, c))
  {
    hide AllLinks, Wired, Cached, Exact, Dotted, Live, HasDots, Lookup, GetAttr, MknodOp, MkdirOp, LinkIn, UnlinkOp,
      Rmdir, Rename, Open, OpenDir, DropFile, DropDir, ApplyReleases, Kept, Passed, PassedDir, Marked, Fsync, FsyncDir,
        SetAttr, XattrOp;
    match c
    case CallRead(i) => WriteKept(t, i);
    case CallWrite(i) => WriteKept(t, i);
    case CallReadDir(d) => PassedKept(t, d);
    case CallFlush(i) => HandleOpen(t, i); FsyncKept(t, i, false);
    case CallFsync(i, datasync) => HandleOpen(t, i); FsyncKept(t, i, datasync);
    case CallFsyncDir(d, datasync) => FsyncDirKept(t, d, datasync);
    case CallSetAttr(i, held) => SetAttrKept(t, i, held);
    case CallClearBits(i) => MarkedKept(t, i);
    case CallXattr(i, n, change) => XattrKept(t, i, n, change);
    case _ =>
  }

  /**
   What such a call leaves behind: a change of contents or attributes a dirty mark, so that the inode is written later;
   the clone of the handle, dropped at the end, the inode on a pending list.
   */
  lemma HandleCallMarks(t: Tables, c: Call)
    requires Settled(t) && Legal(t, c) && OnHandle(c)
    ensures var u, i := Step(t, c), c.ino;
      match c
      case CallReadDir(_) => u == t.(closeDirs := t.closeDirs + [i])
      case CallFsyncDir(_, _) => i in u.closeFiles && i in u.closeDirs
      case CallClearBits(_) => i in u.files && u.files[i].dirty
      case CallXattr(_, n, change) =>
        if |n| > 256 then u == t else i in u.closeFiles && i in u.files && (change ==> u.files[i].dirty)
      case CallWrite(_) => i in u.closeFiles && i in u.files && u.files[i].dirty
      case CallSetAttr(_, _) => i in u.closeFiles && i in u.files && u.files[i].dirty
      case CallRead(_) => u == t.(closeFiles := t.closeFiles + [i])
      case _ => u.closeFiles == t.closeFiles + [i]
  {
    hide AllLinks, Wired, Cached, Exact, Dotted, Live, HasDots, Open, SetAttr, XattrOp, Fsync, FsyncDir;
    HandleOpen(t, c.ino);
    match c
    case CallSetAttr(i, held) =>
      if !held {
        LiveOpens(t, i);
      }
      SetAttrMarks(t, i, held);
    case CallXattr(i, n, change) =>
      LiveOpens(t, i);
      XattrMarks(t, i, n, change);
    case CallFsyncDir(d, datasync) => FsyncPending(t, d, datasync);
    case CallFlush(i) => FsyncPending(t, i, false);
    case CallFsync(i, datasync) => FsyncPending(t, i, datasync);
    case _ =>
  }

  lemma LiveOpens(t: Tables, i: nat)
    requires Settled(t) && Live(t, i)
    ensures Open(t, i).r.Ok?
  {
    hide Good, Open, Live, Reaped;
    ReapedSame(t);
    LiveLater(t, t, {}, i);
    OpenGood(t, 0, 0, {}, i);
  }

  // ----- The tree of a history -----

  /** Entries, kinds and handles of the tables are those of the tree. */
  ghost predicate Mirrors(t: Tables, tree: Tree) {
    && AllLinks(t) == tree.links && t.fileRefs == tree.files && t.dirRefs == tree.dirs && KindsIn(t, tree.kinds)
  }

  /** A call that changes handles at most. */
  lemma HandlesMirror(t: Tables, u: Tables, tree: Tree)
    requires Mirrors(t, tree) && Settled(u) && Reaped(t, u)
    ensures Mirrors(u, tree.(files := u.fileRefs, dirs := u.dirRefs))
    ensures SameRefs(t, u) ==> Mirrors(u, tree)
  {
    hide AllLinks, Wired, Cached, Exact, Dotted, Nlink, KindsIn;
    ReapedKinds(t, u, tree.kinds);
  }

  /** A call that gives back all handles it takes. */
  lemma LinksMirror(t: Tables, u: Tables, tree: Tree, links: map<Key, nat>, kinds: map<nat, bool>)
    requires Mirrors(t, tree) && Reached(t, u, {}, links) && KindsIn(u, kinds)
    ensures Mirrors(u, tree.(links := links, kinds := kinds))
    ensures links == tree.links && kinds == tree.kinds ==> Mirrors(u, tree)
  {
    hide AllLinks, Good, KindsIn;
  }

  /** The kind of an inode that is there. */
  lemma KindMirror(t: Tables, tree: Tree, i: nat)
    requires Mirrors(t, tree) && i in t.inodes
    ensures DirAt(tree, i) <==> IsDir(t, i)
  {
    hide AllLinks;
  }

  /** What an entry names has the kind of the tree, and is in the way of a rename in both or in neither. */
  lemma NamedMirror(t: Tables, tree: Tree, k: Key)
    requires Mirrors(t, tree) && Settled(t)
    ensures k in AllLinks(t) ==> (DirAt(tree, AllLinks(t)[k]) <==> IsDir(t, AllLinks(t)[k]))
    ensures InTheWay(tree, k) <==> Blocked(t, k)
  {
    hide AllLinks, Good, Removable, KindsIn;
    if k in AllLinks(t) {
      NamedLives(t, {}, k);
      KindMirror(t, tree, AllLinks(t)[k]);
    }
  }

  /** The inode allocator hands out a slot that holds no inode when it is called. */
  ghost predicate SlotFree(t: Tables, c: Call) {
    match c
    case CallMknod(s, p, _, _) => s.Some? ==> s.value !in OpenDir(t, p).t.inodes
    case CallMkdir(s, _, _) => s.Some? ==> s.value !in t.inodes
    case _ => true
  }

  /** Which calls are legal can be told from the tree and the slot alone. */
  lemma LegalExactly(t: Tables, tree: Tree, c: Call)
    requires Settled(t) && Mirrors(t, tree)
    ensures Legal(t, c) <==> Allowed(tree, c) && SlotFree(t, c)
  {
    hide AllLinks, Good, KindsIn, Live, Alive, IsDir, DirAt, HasDots, OpenDir;
    match c
    case CallLookup(p, _) => AliveMirror(t, tree, p);
    case CallGetAttr(i) => AliveMirror(t, tree, i);
    case CallLink(i, _, _) => AliveMirror(t, tree, i);
    case CallUnlink(p, _) => AliveMirror(t, tree, p);
    case CallOpen(i) => AliveMirror(t, tree, i);
    case CallOpenDir(d) => AliveMirror(t, tree, d);
    case CallSetAttr(i, _) => AliveMirror(t, tree, i);
    case CallXattr(i, _, _) => AliveMirror(t, tree, i);
    case _ =>
  }

  lemma AliveMirror(t: Tables, tree: Tree, i: nat)
    requires Settled(t) && Mirrors(t, tree)
    ensures Alive(tree, i) <==> Live(t, i)
    ensures Alive(tree, i) ==> (DirAt(tree, i) <==> IsDir(t, i))
  {
    hide AllLinks, Count, Dotted, Nlink, KindsIn;
    RefsInTable(t);
    if Count(tree.links, i) > 0 {
      var k := Named(tree.links, i);
      NamedLives(t, {}, k);
    }
    if i in t.inodes {
      CountIs(t, {}, i);
      KindMirror(t, tree, i);
    }
  }

  lemma MknodMirror(t: Tables, tree: Tree, slot: Option<nat>, p: nat, n: Name, isDir: bool)
    requires Settled(t) && Mirrors(t, tree) && Legal(t, CallMknod(slot, p, n, isDir))
    ensures Mirrors(MknodOp(t, slot, p, n, isDir).t, After(tree, CallMknod(slot, p, n, isDir)))
  {
    hide AllLinks, Good, KindsIn, MknodOp, OpenDir, HasDots, Nlink;
    MknodOpGood(t, slot, p, n, isDir);
    MknodOpKinds(t, tree.kinds, slot, p, n, isDir);
    var u := MknodOp(t, slot, p, n, isDir).t;
    if |n| <= MAX_NAMELEN {
      if slot.None? {
        LinksMirror(t, u, tree, AllLinks(t), tree.kinds);
      } else {
        LinksMirror(t, u, tree, Joined(AllLinks(t), (p, n), slot.value), tree.kinds[slot.value := isDir]);
      }
    }
  }

  lemma MkdirMirror(t: Tables, tree: Tree, slot: Option<nat>, p: nat, n: Name)
    requires Settled(t) && Mirrors(t, tree) && Legal(t, CallMkdir(slot, p, n))
    ensures Mirrors(MkdirOp(t, slot, p, n).t, After(tree, CallMkdir(slot, p, n)))
  {
    hide AllLinks, Good, KindsIn, MkdirOp, HasDots, Nlink;
    MkdirOpGood(t, slot, p, n);
    MkdirOpKinds(t, tree.kinds, slot, p, n);
    var u := MkdirOp(t, slot, p, n).t;
    if |n| <= MAX_NAMELEN && slot.Some? {
      var made := NewDirLinks(AllLinks(t), slot.value, p);
      LinksMirror(t, u, tree, Joined(made, (p, n), slot.value), tree.kinds[slot.value := true]);
    }
  }

  lemma LinkMirror(t: Tables, tree: Tree, i: nat, p: nat, n: Name)
    requires Settled(t) && Mirrors(t, tree) && Legal(t, CallLink(i, p, n))
    ensures Mirrors(LinkOp(t, i, p, n).t, After(tree, CallLink(i, p, n)))
  {
    hide AllLinks, Good, KindsIn, LinkIn, HasDots, Nlink, Live;
    LinkInGood(t, i, p, n);
    LinkOpKinds(t, tree.kinds, i, p, n);
    if |n| <= MAX_NAMELEN {
      LinksMirror(t, LinkOp(t, i, p, n).t, tree, Joined(AllLinks(t), (p, n), i), tree.kinds);
    }
  }

  lemma UnlinkMirror(t: Tables, tree: Tree, p: nat, n: Name)
    requires Settled(t) && Mirrors(t, tree) && Legal(t, CallUnlink(p, n))
    ensures Mirrors(UnlinkOp(t, p, n).t, After(tree, CallUnlink(p, n)))
  {
    hide AllLinks, Good, KindsIn, UnlinkOp, Nlink;
    UnlinkOpGood(t, {}, p, n);
    UnlinkOpKinds(t, tree.kinds, p, n);
    KindMirror(t, tree, p);
    var u := UnlinkOp(t, p, n).t;
    if |n| <= MAX_NAMELEN && IsDir(t, p) {
      LinksMirror(t, u, tree, AllLinks(t) - {(p, n)}, tree.kinds);
    } else {
      LinksMirror(t, u, tree, AllLinks(t), tree.kinds);
    }
  }

  lemma RmdirMirror(t: Tables, tree: Tree, p: nat, n: Name)
    requires Settled(t) && Mirrors(t, tree) && Legal(t, CallRmdir(p, n))
    ensures Mirrors(Rmdir(t, p, n).t, After(tree, CallRmdir(p, n)))
  {
    hide AllLinks, Good, KindsIn, Rmdir, HasDots, Removable, IsDir, DirAt;
    RmdirGood(t, p, n);
    RmdirKinds(t, tree.kinds, p, n);
    NamedMirror(t, tree, (p, n));
    var u, links := Rmdir(t, p, n).t, AllLinks(t);
    if |n| <= MAX_NAMELEN && (p, n) in links && IsDir(t, links[(p, n)]) && Removable(links, links[(p, n)]) {
      var d := links[(p, n)];
      assert WithoutDir(links, d, (p, n)) == links - {(d, DOT), (d, DOT_DOT), (p, n)};
      LinksMirror(t, u, tree, WithoutDir(links, d, (p, n)), tree.kinds);
    } else {
      LinksMirror(t, u, tree, links, tree.kinds);
    }
  }

  lemma RenameMirror(t: Tables, tree: Tree, p: nat, n: Name, q: nat, m: Name)
    requires Settled(t) && Mirrors(t, tree) && Legal(t, CallRename(p, n, q, m))
    ensures Mirrors(Rename(t, p, n, q, m).t, After(tree, CallRename(p, n, q, m)))
  {
    hide AllLinks, Good, KindsIn, Rename, HasDots, Removable, IsDir, DirAt, InTheWay, Blocked;
    RenameGood(t, p, n, q, m);
    RenameKinds(t, tree.kinds, p, n, q, m);
    NamedMirror(t, tree, (q, m));
    var u, links, k := Rename(t, p, n, q, m).t, AllLinks(t), (q, m);
    if |n| <= MAX_NAMELEN && |m| <= MAX_NAMELEN {
      if (p, n) in links && !Blocked(t, k) {
        ClearedOver(t, k, links[(p, n)]);
        LinksMirror(t, u, tree, Cleared(t, k)[k := links[(p, n)]] - {(p, n)}, tree.kinds);
      } else {
        LinksMirror(t, u, tree, links, tree.kinds);
      }
    }
  }

  /** The replaced entry itself is written over. */
  lemma ClearedOver(t: Tables, k: Key, i: nat)
    ensures var links := AllLinks(t);
      Cleared(t, k)[k := i]
      == (if k in links && IsDir(t, links[k]) then links - {(links[k], DOT), (links[k], DOT_DOT)} else links)[k := i]
  {
    hide AllLinks;
  }

  /**
   What every call does to the tree, as it is written out for trees: the tables go from one that shows `tree` to one
   that shows the tree after the call.
   */
  lemma StepMirrors(t: Tables, tree: Tree, c: Call)
    requires Settled(t) && Legal(t, c) && Mirrors(t, tree)
    ensures Mirrors(Step(t, c), After(tree, c))
  {
    hide AllLinks, Good, KindsIn, Live, HasDots, Lookup, GetAttr, MknodOp, MkdirOp, LinkOp, UnlinkOp, Rmdir, Rename,
      Open, OpenDir, ApplyReleases, Nlink, Survives, Mirrors, Removable, Reaped;
    match c
    case CallMknod(s, p, n, isDir) => MknodMirror(t, tree, s, p, n, isDir);
    case CallMkdir(s, p, n) => MkdirMirror(t, tree, s, p, n);
    case CallLink(i, p, n) => LinkMirror(t, tree, i, p, n);
    case CallUnlink(p, n) => UnlinkMirror(t, tree, p, n);
    case CallRmdir(p, n) => RmdirMirror(t, tree, p, n);
    case CallRename(p, n, q, m) => RenameMirror(t, tree, p, n, q, m);
    case _ => QuietMirrors(t, tree, c);
  }

  /** The calls that change no entry. */
  lemma QuietMirrors(t: Tables, tree: Tree, c: Call)
    requires Settled(t) && Legal(t, c) && Mirrors(t, tree)
    requires !c.CallMknod? && !c.CallMkdir? && !c.CallLink? && !c.CallUnlink? && !c.CallRmdir? && !c.CallRename?
    ensures Mirrors(Step(t, c), After(tree, c))
  {
    hide AllLinks, Good, KindsIn, HasDots, Lookup, GetAttr, Open, OpenDir, ApplyReleases, Nlink, Survives, Reaped;
    StepSettled(t, c);
    match c
    case CallLookup(p, n) => LookupGood(t, p, n); HandlesMirror(t, Step(t, c), tree);
    case CallGetAttr(i) =>
      ReapedSame(t);
      LiveLater(t, t, {}, i);
      GetAttrGood(t, {}, i);
      HandlesMirror(t, Step(t, c), tree);
    case CallOpen(i) =>
      ReapedSame(t);
      LiveLater(t, t, {}, i);
      OpenGood(t, 0, 0, {}, i);
      HandlesMirror(t, Step(t, c), tree);
    case CallClose(i) => DropFileGood(t, {}, i); HandlesMirror(t, Step(t, c), tree);
    case CallOpenDir(d) => OpenDirAny(t, {}, d); KindMirror(t, tree, d); HandlesMirror(t, Step(t, c), tree);
    case CallCloseDir(d) => DropDirGood(t, {}, d); HandlesMirror(t, Step(t, c), tree);
    case CallApplyReleases => ApplyReleasesGood(t); HandlesMirror(t, Step(t, c), tree);
    case _ => HandleCallKept(t, c); HandlesMirror(t, Step(t, c), tree);
  }

  function Run(t: Tables, calls: seq<Call>): Tables
    decreases |calls|
  {
    if calls == [] then t else Run(Step(t, calls[0]), calls[1..])
  }

  ghost predicate LegalRun(t: Tables, calls: seq<Call>)
    decreases |calls|
  {
    calls != [] ==> Legal(t, calls[0]) && LegalRun(Step(t, calls[0]), calls[1..])
  }

  lemma {:induction false} RunSettled(t: Tables, calls: seq<Call>)
    requires Settled(t) && LegalRun(t, calls)
    ensures Settled(Run(t, calls))
    decreases |calls|
  {
    hide Legal, Step, Good;
    if calls != [] {
      StepSettled(t, calls[0]);
      RunSettled(Step(t, calls[0]), calls[1..]);
    }
  }

  /** Over every history the tables show the tree that the calls, one after the other, make of the first one. */
  lemma {:induction false} RunMirrors(t: Tables, tree: Tree, calls: seq<Call>)
    requires Settled(t) && LegalRun(t, calls) && Mirrors(t, tree)
    ensures Mirrors(Run(t, calls), AfterAll(tree, calls))
    decreases |calls|
  {
    hide Legal, Step, Good, Mirrors, After;
    if calls != [] {
      StepSettled(t, calls[0]);
      StepMirrors(t, tree, calls[0]);
      RunMirrors(Step(t, calls[0]), After(tree, calls[0]), calls[1..]);
    }
  }

  /** The tables of a freshly formatted device: `create_root`, then the pending lists emptied. */
  function Formatted(): Tables {
    var empty := Tables(map[], map[], map[], map[], multiset{}, multiset{}, [], []);
    ApplyReleases(Mkdir(empty, Some(ROOT_INODE), ROOT_INODE).t)
  }

  /** After formatting there is the root directory, naming itself twice, and nothing open. */
  lemma FormattedSettled()
    ensures var t := Formatted();
      && Settled(t) && AllLinks(t) == map[(ROOT_INODE, DOT) := ROOT_INODE, (ROOT_INODE, DOT_DOT) := ROOT_INODE]
      && t.files == map[] && t.dirs == map[] && t.closeFiles == [] && t.closeDirs == []
  {
    hide Good, Mkdir, ApplyReleases, Nlink;
    var empty := Tables(map[], map[], map[], map[], multiset{}, multiset{}, [], []);
    EmptySettled(empty);
    MkdirGood(empty, ROOT_INODE, ROOT_INODE);
    var u := Mkdir(empty, Some(ROOT_INODE), ROOT_INODE).t;
    ApplyReleasesGood(u);
    var t := ApplyReleases(u);
    assert t.files == map[] && t.dirs == map[];
  }

  /** The tree of a formatted file system is the root alone. */
  lemma FormattedMirrors()
    ensures Mirrors(Formatted(), NewTree())
  {
    hide Wired, Cached, Exact, Dotted, Mkdir, ApplyReleases, Nlink, AllLinks;
    var empty := Tables(map[], map[], map[], map[], multiset{}, multiset{}, [], []);
    EmptySettled(empty);
    MkdirGood(empty, ROOT_INODE, ROOT_INODE);
    var none: map<nat, bool> := map[];
    MkdirKinds(empty, none, ROOT_INODE, ROOT_INODE);
    assert none[ROOT_INODE := true] == NewTree().kinds;
    var u := Mkdir(empty, Some(ROOT_INODE), ROOT_INODE).t;
    ApplyReleasesGood(u);
    FormattedSettled();
    ReapedKinds(u, ApplyReleases(u), NewTree().kinds);
  }

  /** The tree of every history of a formatted file system. */
  lemma HistoryMirrors(calls: seq<Call>)
    requires LegalRun(Formatted(), calls)
    ensures Mirrors(Run(Formatted(), calls), AfterAll(NewTree(), calls))
  {
    hide Good, Run, LegalRun, Formatted, Mirrors, AfterAll, NewTree;
    FormattedSettled();
    FormattedMirrors();
    RunMirrors(Formatted(), NewTree(), calls);
  }

  /** A history that is legal: a file is made in the root and removed again, and the tree is the first one. */
  lemma MadeAndRemoved(slot: nat, name: Name)
    requires slot != 114_514 && !IsDot(name) && |name| <= 256
    ensures var make, remove := CallMknod(Some(slot), 114_514, name, false), CallUnlink(114_514, name);
      && LegalRun(Formatted(), [make, remove])
      && AllLinks(Run(Formatted(), [make])) == NewTree().links[(114_514, name) := slot]
      && AllLinks(Run(Formatted(), [make, remove])) == NewTree().links
  {
    hide Good, Formatted, AllLinks, KindsIn, Step, Legal, OpenDir, Run, LegalRun, Count;
    var t, root := Formatted(), NewTree();
    var make, remove := CallMknod(Some(slot), 114_514, name, false), CallUnlink(114_514, name);
    FormattedSettled();
    FormattedMirrors();
    OpenDirKinds(t, root.kinds, 114_514);
    NotThere(OpenDir(t, 114_514).t, root.kinds, slot);
    LegalExactly(t, root, make);
    StepSettled(t, make);
    StepMirrors(t, root, make);
    var u, tree := Step(t, make), After(root, make);
    CountPositive(tree.links, (114_514, DOT));
    LegalExactly(u, tree, remove);
    StepMirrors(u, tree, remove);
    RunTwo(t, make, remove);
    assert root.links[(114_514, name) := slot] - {(114_514, name)} == root.links;
  }

  lemma RunTwo(t: Tables, c: Call, d: Call)
    ensures Run(t, [c]) == Step(t, c) && Run(t, [c, d]) == Step(Step(t, c), d)
    ensures LegalRun(t, [c, d]) <==> Legal(t, c) && Legal(Step(t, c), d)
  {
    hide Step, Legal;
    var u := Step(t, c);
    var v := Step(u, d);
    assert [c, d][1..] == [d] && [d][1..] == [] && [c][1..] == [];
    assert Run(u, []) == u && Run(u, [d]) == Run(v, []) == v;
    assert LegalRun(v, []);
    assert LegalRun(u, [d]) <==> Legal(u, d);
  }

  lemma NotThere(t: Tables, kinds: map<nat, bool>, i: nat)
    requires KindsIn(t, kinds) && i !in kinds
    ensures i !in t.inodes
  {
  }

  lemma EmptySettled(t: Tables)
    requires t == Tables(map[], map[], map[], map[], multiset{}, multiset{}, [], [])
    ensures Settled(t) && AllLinks(t) == map[]
  {
  }

  /**
   Link counts over every history of a formatted file system: each inode's count is the number of entries that name
   it, and whatever an entry names or a handle refers to has not been destroyed.
   */
  lemma CountsExact(calls: seq<Call>)
    requires LegalRun(Formatted(), calls)
    ensures var u, links := Run(Formatted(), calls), AfterAll(NewTree(), calls).links;
      && AllLinks(u) == links
      && (forall i :: i in u.inodes ==> Nlink(u, i) == Count(links, i))
      && (forall k :: k in AllLinks(u) ==> AllLinks(u)[k] in u.inodes)
      && (forall i :: u.fileRefs[i] > 0 || u.dirRefs[i] > 0 ==> i in u.inodes)
  {
    hide AllLinks, Count, Nlink, Run, LegalRun, Formatted, Dotted, AfterAll, NewTree, KindsIn;
    FormattedSettled();
    RunSettled(Formatted(), calls);
    HistoryMirrors(calls);
  }

  /**
   The deferred-close protocol over every history: after a release every directory in memory has a handle, every file
   in memory has a handle or an open directory, and an inode has gone exactly if it had neither link nor handle.
   */
  lemma ReleasesComplete(calls: seq<Call>)
    requires LegalRun(Formatted(), calls)
    ensures var t := Run(Formatted(), calls);
      var u := ApplyReleases(t);
      && u.closeFiles == [] && u.closeDirs == []
      && (forall d :: d in u.dirs <==> t.dirRefs[d] > 0)
      && (forall i :: i in u.files <==> t.fileRefs[i] > 0 || t.dirRefs[i] > 0)
      && (forall i :: i in t.files ==>
            (i in u.inodes <==> Count(AllLinks(t), i) > 0 || t.fileRefs[i] > 0 || t.dirRefs[i] > 0))
  {
    hide AllLinks, Count, Run, LegalRun, Formatted, Dotted, ApplyReleases, Nlink;
    FormattedSettled();
    var t := Run(Formatted(), calls);
    RunSettled(Formatted(), calls);
    ApplyReleasesGood(t);
    RefsOpen(t);
    RefsInTable(t);
  }

  /**
   Unmounting when no handle is left: everything is on disk. The directories stored there hold exactly the entries of
   the tree that the calls made, and each stored count is the number of entries that name the inode.
   */
  lemma UnmountComplete(calls: seq<Call>)
    requires LegalRun(Formatted(), calls)
    requires Run(Formatted(), calls).fileRefs == multiset{} && Run(Formatted(), calls).dirRefs == multiset{}
    ensures var t := Run(Formatted(), calls);
      var u := ApplyReleases(t);
      && u == Tables(u.inodes, u.stored, map[], map[], multiset{}, multiset{}, [], []) && Settled(u)
      && LinksOf(u.stored, map[]) == AllLinks(t) == AfterAll(NewTree(), calls).links
      && (forall i :: i in u.inodes ==>
            u.inodes[i].nlink == Count(AllLinks(t), i) && u.inodes[i].isDir == DirAt(AfterAll(NewTree(), calls), i))
  {
    hide AllLinks, Count, Run, LegalRun, Formatted, Dotted, ApplyReleases, Nlink, Wired, Cached, LinksOf, AfterAll,
      NewTree;
    FormattedSettled();
    HistoryMirrors(calls);
    var t := Run(Formatted(), calls);
    RunSettled(Formatted(), calls);
    ApplyReleasesGood(t);
    var u := ApplyReleases(t);
    assert u.files == map[] && u.dirs == map[];
    AllOnDisk(u);
  }

  /**
   What `fsyncdir` leaves on the disk over every history: the entries of the directory, and the number of entries that
   name it as its count, unless it is zero.
   */
  lemma FsyncDirStores(calls: seq<Call>, d: nat)
    requires LegalRun(Formatted(), calls) && Run(Formatted(), calls).dirRefs[d] > 0
    ensures var t := Run(Formatted(), calls);
      var u := Step(t, CallFsyncDir(d, false));
      && d in u.stored && u.stored[d] == EntriesOf(t.stored, t.dirs, d)
      && (Count(AllLinks(t), d) > 0 ==> d in u.inodes && u.inodes[d].nlink == Count(AllLinks(t), d))
  {
    hide AllLinks, Count, Run, LegalRun, Formatted, FsyncDir, Good, Kept, Nlink, EntriesOf, InodeStored;
    FormattedSettled();
    var t := Run(Formatted(), calls);
    RunSettled(Formatted(), calls);
    FsyncDirKept(t, d, false);
    StoredCount(t, FsyncDir(t, d, false), d);
  }

  /** And `flush` or `fsync` of a file its exact count. */
  lemma FsyncStores(calls: seq<Call>, i: nat)
    requires LegalRun(Formatted(), calls) && Run(Formatted(), calls).fileRefs[i] > 0
    ensures Step(Run(Formatted(), calls), CallFlush(i)) == Step(Run(Formatted(), calls), CallFsync(i, false))
    ensures var t := Run(Formatted(), calls);
      var u := Step(t, CallFlush(i));
      Count(AllLinks(t), i) > 0 ==> i in u.inodes && u.inodes[i].nlink == Count(AllLinks(t), i)
  {
    hide AllLinks, Count, Run, LegalRun, Formatted, Fsync, Wired, Cached, Exact, Dotted, Kept, Nlink, InodeStored;
    FormattedSettled();
    var t := Run(Formatted(), calls);
    RunSettled(Formatted(), calls);
    HandleOpen(t, i);
    FsyncKept(t, i, false);
    StoredCount(t, Fsync(t, i, false), i);
  }

  lemma StoredCount(t: Tables, u: Tables, i: nat)
    requires Settled(t) && Kept(t, u) && InodeStored(u, i)
    ensures Count(AllLinks(t), i) > 0 ==> i in u.inodes && u.inodes[i].nlink == Count(AllLinks(t), i)
  {
    hide AllLinks, Count, Nlink, Dotted, Wired, Cached;
  }

  lemma AllOnDisk(u: Tables)
    requires Settled(u) && u.files == map[] && u.dirs == map[]
    ensures AllLinks(u) == LinksOf(u.stored, map[])
    ensures forall i :: i in u.inodes ==> u.inodes[i].nlink == Count(AllLinks(u), i)
  {
    hide Dotted, Count, LinksOf, Wired, Cached;
  }

  lemma RefsInTable(t: Tables)
    requires Settled(t)
    ensures forall i :: t.fileRefs[i] > 0 || t.dirRefs[i] > 0 ==> i in t.files
    ensures forall i :: i in t.files ==> i in t.inodes && Nlink(t, i) == Count(AllLinks(t), i)
  {
    hide AllLinks, Count, Dotted, Nlink;
  }
}
