/**
 The operations of `Handle` (ops.rs) on the tables, as values, and what they do to the directory tree: each changes
 exactly the entries it names, keeps every link count exact, and gives back every handle it takes.
 */
module Operations {
  import opened Results
  import opened Links
  import opened Tables

  datatype Attr = Attr(ino: nat, nlink: nat, isDir: bool)

  // ----- The operations -----

  /** `getattr`: the handle lives as long as the call. */
  function GetAttr(t: Tables, i: nat): (o: Out<Attr>)
    ensures o.t.dirs == t.dirs
  {
    var f := Open(t, i);
    if f.r.Err? || i !in f.t.files then Out(f.t, Err(if f.r.Err? then f.r.error else Corrupted))
    else Out(DropFile(f.t, i), Ok(Attr(i, f.t.files[i].nlink, f.t.files[i].isDir)))
  }

  function Lookup(t: Tables, parent: nat, name: Name): Out<Attr> {
    if |name| > MAX_NAMELEN then Out(t, Err(NameTooLong))
    else
      var d := OpenDir(t, parent);
      if d.r.Err? then Out(d.t, Err(d.r.error))
      else
        var entries := d.t.dirs[parent].entries;
        if name !in entries then Out(DropDir(d.t, parent), Err(NotFound))
        else
          var a := GetAttr(d.t, entries[name]);
          Out(DropDir(a.t, parent), a.r)
  }

  /** `open_dir` and `link` of the parent, then `getattr`: how `link` and `mkdir` end. */
  function LinkIn(t: Tables, i: nat, parent: nat, name: Name): Out<Attr> {
    var d := OpenDir(t, parent);
    if d.r.Err? then Out(d.t, Err(d.r.error)) else LinkAt(d.t, i, parent, name)
  }

  function LinkAt(t: Tables, i: nat, parent: nat, name: Name): Out<Attr>
    requires parent in t.dirs
  {
    var l := Link(t, i, parent, name);
    if l.r.Err? then Out(l.t, Err(l.r.error)) else GetAttr(l.t, i)
  }

  function LinkOp(t: Tables, i: nat, parent: nat, name: Name): Out<Attr> {
    if |name| > MAX_NAMELEN then Out(t, Err(NameTooLong)) else LinkIn(t, i, parent, name)
  }

  /** `Handle::mknod`; `slot` is what the inode allocator hands out, if anything. */
  function MknodOp(t: Tables, slot: Option<nat>, parent: nat, name: Name, isDir: bool): Out<Attr> {
    if |name| > MAX_NAMELEN then Out(t, Err(NameTooLong))
    else
      var d := OpenDir(t, parent);
      if d.r.Err? then Out(d.t, Err(d.r.error))
      else
        var m := Mknod(d.t, slot, isDir);
        if m.r.Err? then Out(DropDir(m.t, parent), Err(m.r.error)) else LinkAt(m.t, m.r.value, parent, name)
  }

  /** `Donkey::mkdir`: a directory holding its dot entries, not yet linked to its parent. */
  function Mkdir(t: Tables, slot: Option<nat>, parent: nat): Out<nat> {
    var m := Mknod(t, slot, true);
    if m.r.Err? then m
    else
      var i := m.r.value;
      var d := OpenDir(m.t, i);
      if d.r.Err? then Out(d.t, Err(d.r.error))
      else
        var l := Link(d.t.(dirRefs := d.t.dirRefs + multiset{i}), i, i, DOT);
        if l.r.Err? then Out(DropDir(l.t, i), Err(l.r.error))
        else
          var k := Link(l.t, parent, i, DOT_DOT);
          Out(k.t, if k.r.Err? then Err(k.r.error) else Ok(i))
  }

  /** `Handle::mkdir`: the directory is made before its parent is opened. */
  function MkdirOp(t: Tables, slot: Option<nat>, parent: nat, name: Name): Out<Attr> {
    if |name| > MAX_NAMELEN then Out(t, Err(NameTooLong))
    else
      var m := Mkdir(t, slot, parent);
      if m.r.Err? then Out(m.t, Err(m.r.error)) else LinkIn(m.t, m.r.value, parent, name)
  }

  function UnlinkOp(t: Tables, parent: nat, name: Name): Out<()> {
    if |name| > MAX_NAMELEN then Out(t, Err(NameTooLong))
    else
      var d := OpenDir(t, parent);
      if d.r.Err? then d else Unlink(d.t, parent, name)
  }

  function Rmdir(t: Tables, parent: nat, name: Name): Out<()> {
    var l := Lookup(t, parent, name);
    if l.r.Err? then Out(l.t, Err(l.r.error))
    else
      var i := l.r.value.ino;
      var d := OpenDir(l.t, i);
      if d.r.Err? then d
      else if |d.t.dirs[i].entries| != 2 then Out(DropDir(d.t, i), Err(NotEmpty))
      else
        var a := UnlinkOp(d.t, i, DOT);
        if a.r.Err? then Out(DropDir(a.t, i), a.r)
        else
          var b := UnlinkOp(a.t, i, DOT_DOT);
          if b.r.Err? then Out(DropDir(b.t, i), b.r)
          else
            var c := UnlinkOp(b.t, parent, name);
            Out(DropDir(c.t, i), c.r)
  }

  /** The part of `rename` that makes room for the new name. */
  function Displace(t: Tables, parent: nat, name: Name): Out<()> {
    var l := Lookup(t, parent, name);
    if l.r.Err? then Out(l.t, Ok(()))
    else if l.r.value.isDir then Rmdir(l.t, parent, name)
    else UnlinkOp(l.t, parent, name)
  }

  function Rename(t: Tables, from: nat, name: Name, to: nat, newName: Name): Out<()> {
    if |name| > MAX_NAMELEN || |newName| > MAX_NAMELEN then Out(t, Err(NameTooLong))
    else
      var l := Lookup(t, from, name);
      if l.r.Err? then Out(l.t, Err(l.r.error))
      else
        var e := Displace(l.t, to, newName);
        if e.r.Err? then e
        else
          var d := OpenDir(e.t, to);
          if d.r.Err? then d
          else
            var k := Link(d.t, l.r.value.ino, to, newName);
            if k.r.Err? then k else UnlinkOp(k.t, from, name)
  }

  // ----- What the operations keep -----

  /** No handle more or less. */
  predicate SameRefs(t: Tables, u: Tables) {
    u.fileRefs == t.fileRefs && u.dirRefs == t.dirRefs
  }

  /** A state between operations with these entries, and the handles of `t`. */
  ghost predicate Reached(t: Tables, u: Tables, unfinished: set<nat>, links: map<Key, nat>) {
    Good(u, 0, 0, unfinished) && SameRefs(t, u) && AllLinks(u) == links
  }

  /** An inode number a caller may pass: it has a link or a handle. */
  predicate Live(t: Tables, i: nat) {
    i in t.inodes && (Nlink(t, i) > 0 || t.fileRefs[i] > 0 || t.dirRefs[i] > 0)
  }

  /** Whatever an entry names is there and linked. */
  lemma NamedLives(t: Tables, unfinished: set<nat>, k: Key)
    requires Good(t, 0, 0, unfinished) && k in AllLinks(t)
    ensures var i := AllLinks(t)[k]; i in t.inodes && Nlink(t, i) > 0 && Survives(t, i) && Live(t, i)
  {
    hide AllLinks, Count, Wired, Cached, Dotted;
    CountPositive(AllLinks(t), k);
  }

  /** A directory with its dot entries can be opened. */
  lemma DotsOpen(t: Tables, unfinished: set<nat>, d: nat)
    requires Good(t, 0, 0, unfinished) && HasDots(AllLinks(t), d)
    ensures IsDir(t, d) && Nlink(t, d) > 0 && Live(t, d)
  {
    hide AllLinks, Count, Wired, Dotted, Exact;
    LinkStored(t, (d, DOT));
    NamedLives(t, unfinished, (d, DOT));
  }

  lemma HeldIsDir(t: Tables, x: nat, owed: int, unfinished: set<nat>, d: nat)
    requires Good(t, x, owed, unfinished) && t.dirRefs[d] > 0
    ensures IsDir(t, d) && d in t.dirs
  {
    hide AllLinks, Count, Dotted, Exact;
    DirIsStored(t, d);
  }

  /** Count and kind of the inode. */
  ghost predicate StatEffect(t: Tables, o: Out<Attr>, unfinished: set<nat>, i: nat) {
    && Reached(t, o.t, unfinished, AllLinks(t)) && Reaped(t, o.t)
    && o.r == Ok(Attr(i, Nlink(t, i), IsDir(t, i)))
  }

  lemma GetAttrGood(t: Tables, unfinished: set<nat>, i: nat)
    requires Good(t, 0, 0, unfinished) && Survives(t, i)
    ensures StatEffect(t, GetAttr(t, i), unfinished, i)
  {
    hide AllLinks, Count, Wired, Cached, Dotted, Exact, Survives, Nlink, Open, Good, DropFile, LinksOf, HasDots;
    OpenGood(t, 0, 0, unfinished, i);
    var v := Open(t, i).t;
    Known(v, 0, 0, unfinished, i);
    SameKind(v, 0, 0, unfinished, i);
    DropFileGood(v, unfinished, i);
    ReapedTrans(t, v, DropFile(v, i));
    FileRefBack(t, v, i);
  }

  lemma SameKind(t: Tables, x: nat, owed: int, unfinished: set<nat>, i: nat)
    requires Good(t, x, owed, unfinished) && i in t.files
    ensures i in t.inodes && t.files[i].isDir == t.inodes[i].isDir
  {
  }

  lemma FileRefBack(t: Tables, v: Tables, i: nat)
    requires v.fileRefs == t.fileRefs + multiset{i}
    ensures DropFile(v, i).fileRefs == t.fileRefs && DropFile(v, i).dirRefs == v.dirRefs && v.fileRefs[i] > 0
  {
  }

  lemma DirRefBack(t: Tables, v: Tables, w: Tables, d: nat)
    requires v.dirRefs == t.dirRefs + multiset{d} && v.fileRefs == t.fileRefs
    ensures OneLess(v, w, d) ==> SameRefs(t, w)
    ensures v.dirRefs[d] > 0 && OneLess(v, DropDir(v, d), d)
    ensures t.dirRefs[d] > 0 ==> v.dirRefs[d] > 1
  {
  }

  /** A handle with exactly the entries, or the complaint that it is no directory. */
  ghost predicate OpenDirEffect(t: Tables, o: Out<()>, unfinished: set<nat>, d: nat) {
    && Good(o.t, 0, 0, unfinished) && Reaped(t, o.t) && o.t.fileRefs == t.fileRefs
    && if IsDir(t, d) then
         && o.r == Ok(()) && d in o.t.dirs && d in o.t.inodes && o.t.dirRefs == t.dirRefs + multiset{d}
         && o.t.dirs[d].entries == EntriesOf(t.stored, t.dirs, d)
       else o.r == Err(NotDirectory) && o.t.dirRefs == t.dirRefs
  }

  /** `open_dir` on a live inode: a handle on it, or the complaint that it is no directory. */
  lemma OpenDirAny(t: Tables, unfinished: set<nat>, d: nat)
    requires Good(t, 0, 0, unfinished) && Live(t, d)
    ensures OpenDirEffect(t, OpenDir(t, d), unfinished, d)
  {
    hide AllLinks, Count, Wired, Cached, Dotted, Exact, Good, LinksOf, HasDots, OpenDir, Nlink, Survives, EntriesOf,
      DropFile;
    if IsDir(t, d) {
      OpenDirGood(t, unfinished, d);
      OpenedEntries(t, unfinished, d);
    } else {
      OpenDirNot(t, unfinished, d);
    }
  }

  lemma OpenedEntries(t: Tables, unfinished: set<nat>, d: nat)
    requires Good(t, 0, 0, unfinished) && IsDir(t, d) && Good(OpenDir(t, d).t, 0, 0, unfinished)
    requires Reaped(t, OpenDir(t, d).t)
    requires d in OpenDir(t, d).t.dirs
    ensures OpenDir(t, d).t.dirs[d].entries == EntriesOf(t.stored, t.dirs, d)
  {
    hide Count, Dotted, Exact, OpenDir, Nlink, AllLinks, EntriesOf;
    var u := OpenDir(t, d).t;
    var was, now := EntriesOf(t.stored, t.dirs, d), u.dirs[d].entries;
    DirIsStored(u, d);
    MemEntries(u, d);
    hide Wired, Cached;
    forall n
      ensures n in now <==> n in was
      ensures n in now ==> now[n] == was[n]
    {
      ParentListed(t, unfinished, d, n);
      ParentListed(u, unfinished, d, n);
    }
  }

  lemma MemEntries(t: Tables, d: nat)
    requires d in t.dirs
    ensures EntriesOf(t.stored, t.dirs, d) == t.dirs[d].entries
  {
  }

  lemma ListedOf(t: Tables, d: nat, n: Name)
    requires d in t.stored
    ensures (d, n) in AllLinks(t) <==> n in EntriesOf(t.stored, t.dirs, d)
    ensures (d, n) in AllLinks(t) ==> AllLinks(t)[(d, n)] == EntriesOf(t.stored, t.dirs, d)[n]
  {
  }

  lemma OpenDirNot(t: Tables, unfinished: set<nat>, d: nat)
    requires Good(t, 0, 0, unfinished) && Live(t, d) && !IsDir(t, d)
    ensures var o := OpenDir(t, d);
      Good(o.t, 0, 0, unfinished) && Reaped(t, o.t) && SameRefs(t, o.t) && o.r == Err(NotDirectory)
  {
    hide AllLinks, Count, Wired, Cached, Dotted, Exact, Good, LinksOf, HasDots, CloseDirs, Nlink, Open, DropFile;
    CloseDirsGood(t, unfinished);
    var u := CloseDirs(t);
    NotOpenDir(u, unfinished, d);
    LiveLater(t, u, unfinished, d);
    OpenGood(u, 0, 0, unfinished, d);
    var v := Open(u, d).t;
    SameKind(v, 0, 0, unfinished, d);
    DropFileGood(v, unfinished, d);
    FileRefBack(u, v, d);
    ReapedTrans(t, u, v);
    ReapedTrans(t, v, DropFile(v, d));
  }

  lemma NotOpenDir(t: Tables, unfinished: set<nat>, d: nat)
    requires Good(t, 0, 0, unfinished) && !IsDir(t, d)
    ensures d !in t.dirs
  {
    hide AllLinks, Count, Dotted, Exact;
    if d in t.dirs {
      DirIsStored(t, d);
    }
  }

  lemma LiveLater(t: Tables, u: Tables, unfinished: set<nat>, d: nat)
    requires Good(t, 0, 0, unfinished) && Live(t, d) && Good(u, 0, 0, unfinished) && Reaped(t, u)
    requires t.fileRefs <= u.fileRefs && t.dirRefs <= u.dirRefs
    ensures Live(u, d) && Survives(u, d)
  {
    hide AllLinks, Count, Dotted, Exact;
    assert u.fileRefs[d] >= t.fileRefs[d] && u.dirRefs[d] >= t.dirRefs[d];
  }

  /** The entry found or not; nothing changes but what was pending. */
  ghost predicate LookupEffect(t: Tables, o: Out<Attr>, parent: nat, name: Name) {
    && Reached(t, o.t, {}, AllLinks(t)) && Reaped(t, o.t)
    && o.r == (if |name| > MAX_NAMELEN then Err(NameTooLong)
               else if !IsDir(t, parent) then Err(NotDirectory)
               else if (parent, name) !in AllLinks(t) then Err(NotFound)
               else
                 var i := AllLinks(t)[(parent, name)];
                 Ok(Attr(i, Nlink(t, i), IsDir(t, i))))
  }

  /** `lookup` finds exactly the entries, and reports count and kind of the inode an entry names. */
  lemma LookupGood(t: Tables, parent: nat, name: Name)
    requires Settled(t) && Live(t, parent)
    ensures LookupEffect(t, Lookup(t, parent, name), parent, name)
  {
    hide AllLinks, Count, Wired, Cached, Dotted, Exact, Good, LinksOf, HasDots, OpenDir, Nlink, Survives, DropDir,
      GetAttr, EntriesOf;
    if |name| > MAX_NAMELEN {
      ReapedSame(t);
    } else {
      OpenDirAny(t, {}, parent);
      var u := OpenDir(t, parent).t;
      if IsDir(t, parent) {
        DirRefBack(t, u, DropDir(u, parent), parent);
        ParentListed(t, {}, parent, name);
        if (parent, name) in AllLinks(t) {
          var i := AllLinks(t)[(parent, name)];
          NamedLives(u, {}, (parent, name));
          GetAttrGood(u, {}, i);
          var v := GetAttr(u, i).t;
          DropDirGood(v, {}, parent);
          DirRefBack(t, v, DropDir(v, parent), parent);
          ReapedTrans(t, u, v);
          ReapedTrans(t, v, DropDir(v, parent));
          ReapedKind(t, u, i);
        } else {
          DropDirGood(u, {}, parent);
          ReapedTrans(t, u, DropDir(u, parent));
        }
      }
    }
  }

  lemma ParentListed(t: Tables, unfinished: set<nat>, d: nat, n: Name)
    requires Good(t, 0, 0, unfinished) && IsDir(t, d)
    ensures (d, n) in AllLinks(t) <==> n in EntriesOf(t.stored, t.dirs, d)
    ensures (d, n) in AllLinks(t) ==> AllLinks(t)[(d, n)] == EntriesOf(t.stored, t.dirs, d)[n]
  {
    hide AllLinks, Count, Wired, Dotted, Exact;
    ListedOf(t, d, n);
  }

  lemma ReapedKind(t: Tables, u: Tables, i: nat)
    requires Reaped(t, u) && i in u.inodes
    ensures Nlink(u, i) == Nlink(t, i) && (IsDir(u, i) <==> IsDir(t, i)) && i in t.inodes
  {
    hide Nlink, AllLinks;
  }

  /** The links after adding an entry, if the name is free. */
  function Joined(links: map<Key, nat>, k: Key, i: nat): map<Key, nat> {
    if k in links then links else links[k := i]
  }

  lemma LinkAtGood(t0: Tables, t: Tables, i: nat, parent: nat, name: Name)
    requires Settled(t) && Survives(t, i) && parent in t.dirs && HasDots(AllLinks(t), parent)
    requires t.dirRefs == t0.dirRefs + multiset{parent} && t.fileRefs == t0.fileRefs
    ensures var o := LinkAt(t, i, parent, name);
      && Reached(t0, o.t, {}, Joined(AllLinks(t), (parent, name), i))
      && (if (parent, name) in AllLinks(t) then o.r == Err(AlreadyExists) && CountsExcept(t, o.t, i)
          else i in o.t.inodes && o.r == Ok(Attr(i, Nlink(t, i) + 1, IsDir(t, i))) && Nlink(o.t, i) == Nlink(t, i) + 1)
  {
    hide AllLinks, Count, Wired, Cached, Dotted, Exact, Good, LinksOf, HasDots, Link, Nlink, Survives, GetAttr,
      CountsExcept;
    LinkGood(t, {}, i, parent, name);
    var u := Link(t, i, parent, name).t;
    DirRefBack(t0, t, u, parent);
    if (parent, name) !in AllLinks(t) {
      LinkedSurvives(u, i);
      GetAttrGood(u, {}, i);
      ReapedKind(u, GetAttr(u, i).t, i);
      CountsKind(t, u, i);
    }
  }

  lemma CountsKind(t: Tables, u: Tables, i: nat)
    requires CountsExcept(t, u, i) && i in u.inodes
    ensures IsDir(u, i) <==> IsDir(t, i)
  {
  }

  lemma LinkedSurvives(t: Tables, i: nat)
    requires i in t.inodes && Nlink(t, i) > 0
    ensures Survives(t, i)
  {
  }

  /** One entry and one count more, or neither. */
  ghost predicate LinkEffect(t: Tables, o: Out<Attr>, i: nat, parent: nat, name: Name) {
    && Reached(t, o.t, {}, Joined(AllLinks(t), (parent, name), i))
    && (if (parent, name) in AllLinks(t) then o.r == Err(AlreadyExists)
        else i in o.t.inodes && o.r == Ok(Attr(i, Nlink(t, i) + 1, IsDir(t, i))) && Nlink(o.t, i) == Nlink(t, i) + 1)
  }

  /** The same for a name within the limit; a longer one changes nothing. */
  ghost predicate LinkOpEffect(t: Tables, o: Out<Attr>, i: nat, parent: nat, name: Name) {
    if |name| > 256 then o == Out(t, Err(NameTooLong)) else LinkEffect(t, o, i, parent, name)
  }

  lemma LinkOpGood(t: Tables, i: nat, parent: nat, name: Name)
    requires Settled(t) && Live(t, i) && HasDots(AllLinks(t), parent)
    ensures LinkOpEffect(t, LinkOp(t, i, parent, name), i, parent, name)
  {
    hide Good, LinkIn, LinkEffect, AllLinks, Live, HasDots;
    LinkInGood(t, i, parent, name);
  }

  lemma LinkInGood(t: Tables, i: nat, parent: nat, name: Name)
    requires Settled(t) && Live(t, i) && HasDots(AllLinks(t), parent)
    ensures LinkEffect(t, LinkIn(t, i, parent, name), i, parent, name)
  {
    hide AllLinks, Count, Wired, Cached, Dotted, Exact, Good, LinksOf, HasDots, OpenDir, Nlink, Survives, Live,
      LinkAt, CountsExcept, EntriesOf;
    DotsOpen(t, {}, parent);
    OpenDirAny(t, {}, parent);
    var u := OpenDir(t, parent).t;
    LiveLater(t, u, {}, i);
    LinkAtGood(t, u, i, parent, name);
    LiveIn(u, i);
    ReapedKind(t, u, i);
  }

  lemma LiveIn(t: Tables, i: nat)
    requires Live(t, i)
    ensures i in t.inodes
  {
  }

  /** A new inode with its entry; if the name is taken, without one. */
  ghost predicate MknodEffect(t: Tables, o: Out<Attr>, slot: Option<nat>, parent: nat, name: Name, isDir: bool) {
    if |name| > MAX_NAMELEN then o == Out(t, Err(NameTooLong))
    else if slot.None? then o.r == Err(Exhausted) && Reached(t, o.t, {}, AllLinks(t))
    else
      && Reached(t, o.t, {}, Joined(AllLinks(t), (parent, name), slot.value))
      && (if (parent, name) in AllLinks(t) then o.r == Err(AlreadyExists) else o.r == Ok(Attr(slot.value, 1, isDir)))
  }

  /** `mknod`: one new inode with one entry; if the name is taken the inode is left without any. */
  lemma MknodOpGood(t: Tables, slot: Option<nat>, parent: nat, name: Name, isDir: bool)
    requires Settled(t) && HasDots(AllLinks(t), parent)
    requires slot.Some? ==> slot.value !in OpenDir(t, parent).t.inodes
    ensures MknodEffect(t, MknodOp(t, slot, parent, name, isDir), slot, parent, name, isDir)
  {
    hide AllLinks, Count, Wired, Cached, Dotted, Exact, Good, LinksOf, HasDots, OpenDir, Nlink, Survives, Live,
      LinkAt, CountsExcept, EntriesOf, Mknod, DropDir;
    DotsOpen(t, {}, parent);
    OpenDirAny(t, {}, parent);
    var u := OpenDir(t, parent).t;
    DirRefBack(t, u, DropDir(u, parent), parent);
    MknodIs(u, slot, isDir);
    if |name| <= MAX_NAMELEN {
      if slot.None? {
        DropDirGood(u, {}, parent);
      } else {
        MknodGood(u, {}, slot.value, isDir);
        LinkAtGood(t, Mknod(u, slot, isDir).t, slot.value, parent, name);
      }
    }
  }

  lemma MknodIs(t: Tables, slot: Option<nat>, isDir: bool)
    ensures Mknod(t, slot, isDir).t.dirs == t.dirs
    ensures Mknod(t, slot, isDir).r == (if slot.None? then Err(Exhausted) else Ok(slot.value))
    ensures slot.None? ==> Mknod(t, slot, isDir).t == t
  {
  }

  // ----- Making a directory -----

  lemma Unfinish(t: Tables, d: nat)
    requires Settled(t) && t.dirRefs[d] > 0
    ensures Good(t, 0, 0, {d})
  {
    hide AllLinks, Count, Wired, Cached, Exact, HasDots;
  }

  /** A directory is finished once it has its dot entries, or none at all. */
  lemma Finish(t: Tables, x: nat, owed: int, d: nat)
    requires Good(t, x, owed, {d}) && (HasDots(AllLinks(t), d) || forall k :: k in AllLinks(t) ==> k.0 != d)
    ensures Good(t, x, owed, {})
  {
    hide AllLinks, Count, Wired, Cached, Exact, HasDots;
  }

  /** The entry that completes directory `d`, added through the last handle on it. */
  lemma LastLink(t: Tables, i: nat, d: nat, name: Name)
    requires Good(t, 0, 0, {d}) && Survives(t, i) && d in t.dirs && t.dirRefs[d] > 0
    requires (d, name) !in AllLinks(t) && HasDots(AllLinks(t)[(d, name) := i], d)
    ensures var o := Link(t, i, d, name);
      && Settled(o.t) && OneLess(t, o.t, d) && CountsExcept(t, o.t, i)
      && o.r == Ok(()) && AllLinks(o.t) == AllLinks(t)[(d, name) := i]
  {
    hide LinksOf, Count, Wired, Cached, HasDots, Exact, Dotted, Open, AllLinks, Survives, Good, Nlink, CountsExcept,
      Reaped, WithEntries, Link, Adjusted, DropDir;
    EntryListed(t, {d}, d, name);
    LinkIs(t, i, d, name);
    var entries := t.dirs[d].entries;
    AddedEntry(t, {d}, i, d, name);
    var u := WithEntries(t, d, entries[name := i]);
    Finish(u, i, 1, d);
    EntriesCounts(t, d, entries[name := i], i);
    ChangedGood(t, u, {}, i, 1, d);
  }

  /** The links of a new directory `i` below `parent`. */
  function NewDirLinks(links: map<Key, nat>, i: nat, parent: nat): map<Key, nat> {
    links[(i, DOT) := i][(i, DOT_DOT) := parent]
  }

  /** The first half of `mkdir`: an empty directory with two handles. */
  lemma BareDir(t: Tables, i: nat)
    requires Settled(t) && i !in t.inodes
    ensures var m := Mknod(t, Some(i), true);
      var d := OpenDir(m.t, i);
      && m.r == Ok(i) && d.r == Ok(())
      && var c := d.t.(dirRefs := d.t.dirRefs + multiset{i});
      && Good(c, 0, 0, {i}) && AllLinks(c) == AllLinks(t)
      && c.fileRefs == t.fileRefs && c.dirRefs == t.dirRefs + multiset{i} + multiset{i}
      && i in c.dirs && Survives(c, i) && IsDir(c, i) && forall k :: k in AllLinks(c) ==> k.0 != i
  {
    hide LinksOf, Count, Wired, Cached, HasDots, Exact, Dotted, OpenDir, AllLinks, Survives, Good, Nlink,
      CountsExcept, Reaped, Mknod;
    MknodIs(t, Some(i), true);
    MknodGood(t, {}, i, true);
    var u := Mknod(t, Some(i), true).t;
    OpenDirGood(u, {}, i);
    var v := OpenDir(u, i).t;
    ReapedCounts(u, v, i);
    AddDirRef(v, {}, i);
    var c := v.(dirRefs := v.dirRefs + multiset{i});
    ReapedCounts(v, c, i);
    Unfinish(c, i);
    HeldIsDir(c, 0, 0, {i}, i);
    HeldSurvives(c, i);
  }

  lemma HeldSurvives(t: Tables, i: nat)
    requires i in t.inodes && i in t.dirs
    ensures Survives(t, i)
  {
  }

  /** The new directory holds its dot entries, and nothing named it or was in it before. */
  ghost predicate MakeDirEffect(t: Tables, o: Out<nat>, i: nat, parent: nat) {
    && o.r == Ok(i) && Reached(t, o.t, {}, NewDirLinks(AllLinks(t), i, parent)) && HasDots(AllLinks(o.t), i)
    && forall k :: k in AllLinks(t) ==> k.0 != i && AllLinks(t)[k] != i
  }

  /** `Donkey::mkdir`: the new directory has exactly its dot entries, and its parent one more link. */
  lemma MkdirGood(t: Tables, i: nat, parent: nat)
    requires Settled(t) && i !in t.inodes && (parent == i || HasDots(AllLinks(t), parent))
    ensures MakeDirEffect(t, Mkdir(t, Some(i), parent), i, parent)
  {
    hide LinksOf, Count, Wired, Cached, Exact, Dotted, OpenDir, AllLinks, Survives, Good, Nlink, CountsExcept, Reaped,
      Mknod, Link;
    BareDir(t, i);
    var d := OpenDir(Mknod(t, Some(i), true).t, i).t;
    var c := d.(dirRefs := d.dirRefs + multiset{i});
    LinkGood(c, {i}, i, i, DOT);
    var l := Link(c, i, i, DOT).t;
    NamedLives(l, {i}, (i, DOT));
    if parent != i {
      NamedLives(l, {i}, (parent, DOT));
    }
    HeldIsDir(l, 0, 0, {i}, i);
    LastLink(l, parent, i, DOT_DOT);
    MkdirIs(t, i, parent);
    MknodGood(t, {}, i, true);
    MkdirRefs(t.dirRefs, i);
  }

  lemma MkdirRefs(refs: multiset<nat>, i: nat)
    ensures refs + multiset{i} + multiset{i} - multiset{i} - multiset{i} == refs
  {
  }

  lemma MkdirIs(t: Tables, i: nat, parent: nat)
    ensures var d := OpenDir(Mknod(t, Some(i), true).t, i);
      d.r == Ok(()) ==>
        var l := Link(d.t.(dirRefs := d.t.dirRefs + multiset{i}), i, i, DOT);
        l.r == Ok(()) ==>
          var k := Link(l.t, parent, i, DOT_DOT);
          k.r == Ok(()) ==> Mkdir(t, Some(i), parent) == Out(k.t, Ok(i))
  {
    hide OpenDir, Link;
  }

  lemma CountIs(t: Tables, unfinished: set<nat>, i: nat)
    requires Good(t, 0, 0, unfinished) && i in t.inodes
    ensures Nlink(t, i) == Count(AllLinks(t), i)
  {
  }

  /** A new directory with its dot entries and its entry; if the name is taken, without the latter. */
  ghost predicate MkdirEffect(t: Tables, o: Out<Attr>, slot: Option<nat>, parent: nat, name: Name) {
    if |name| > MAX_NAMELEN then o == Out(t, Err(NameTooLong))
    else if slot.None? then o == Out(t, Err(Exhausted))
    else
      var made := NewDirLinks(AllLinks(t), slot.value, parent);
      && Reached(t, o.t, {}, Joined(made, (parent, name), slot.value))
      && (if (parent, name) in AllLinks(t) then o.r == Err(AlreadyExists) else o.r == Ok(Attr(slot.value, 2, true)))
  }

  /**
   `mkdir`: the new directory, its dot entries and its entry in the parent. If the name is taken the directory stays
   behind with its dot entries, and the parent keeps the link from `..`: the counts are exact all the same.
   */
  lemma MkdirOpGood(t: Tables, slot: Option<nat>, parent: nat, name: Name)
    requires Settled(t) && HasDots(AllLinks(t), parent) && (slot.Some? ==> slot.value !in t.inodes) && !IsDot(name)
    ensures MkdirEffect(t, MkdirOp(t, slot, parent, name), slot, parent, name)
  {
    hide LinksOf, Count, Wired, Cached, Exact, Dotted, AllLinks, Survives, Good, Nlink, Mknod, Mkdir, LinkIn;
    if |name| <= MAX_NAMELEN {
      MkdirIsNone(t, parent);
      if slot.Some? {
        var i := slot.value;
        MkdirGood(t, i, parent);
        var u := Mkdir(t, slot, parent).t;
        NamedLives(u, {}, (i, DOT));
        DotsOpen(u, {}, i);
        LinkInGood(u, i, parent, name);
        CountIs(u, {}, i);
        OneDot(AllLinks(t), i, parent);
      }
    }
  }

  lemma MkdirIsNone(t: Tables, parent: nat)
    ensures Mkdir(t, None, parent) == Out(t, Err(Exhausted))
  {
  }

  lemma OneDot(links: map<Key, nat>, i: nat, parent: nat)
    requires forall k :: k in links ==> k.0 != i && links[k] != i
    requires parent != i
    ensures Count(NewDirLinks(links, i, parent), i) == 1
  {
    NotNamed(links, i);
    CountAdd(links, (i, DOT), i, i);
    CountAdd(links[(i, DOT) := i], (i, DOT_DOT), parent, i);
  }

  // ----- Removing names -----

  /** The entry gone, if there was one. */
  ghost predicate UnlinkEffect(t: Tables, o: Out<()>, unfinished: set<nat>, parent: nat, name: Name) {
    && Reached(t, o.t, unfinished,
               if IsDir(t, parent) && |name| <= MAX_NAMELEN then AllLinks(t) - {(parent, name)} else AllLinks(t))
    && o.r == (if |name| > MAX_NAMELEN then Err(NameTooLong) else if IsDir(t, parent) then Ok(())
      else Err(NotDirectory))
  }

  /** `unlink` removes exactly the entry, if there is one. */
  lemma UnlinkOpGood(t: Tables, unfinished: set<nat>, parent: nat, name: Name)
    requires Good(t, 0, 0, unfinished) && Live(t, parent) && (parent in unfinished || !IsDot(name))
    ensures UnlinkEffect(t, UnlinkOp(t, parent, name), unfinished, parent, name)
  {
    hide LinksOf, Count, Wired, Cached, Exact, Dotted, OpenDir, AllLinks, Survives, Good, Nlink, CountsExcept, Live,
      Unlink, EntriesOf, HasDots;
    if |name| <= MAX_NAMELEN {
      OpenDirAny(t, unfinished, parent);
      var u := OpenDir(t, parent).t;
      if IsDir(t, parent) {
        RefsForUnfinished(t, unfinished, parent);
        DirRefBack(t, u, u, parent);
        UnlinkGood(u, unfinished, parent, name);
        DirRefBack(t, u, Unlink(u, parent, name).t, parent);
        WithoutMissing(AllLinks(t), (parent, name));
      }
    }
  }

  lemma RefsForUnfinished(t: Tables, unfinished: set<nat>, d: nat)
    requires Good(t, 0, 0, unfinished)
    ensures d in unfinished ==> t.dirRefs[d] > 0
  {
    hide Wired, Cached, Exact, AllLinks;
  }

  lemma WithoutMissing(links: map<Key, nat>, k: Key)
    ensures k !in links ==> links - {k} == links
  {
  }

  /** `rmdir` counts the entries; two of them are exactly the dot entries. */
  lemma TwoEntries(t: Tables, d: nat)
    requires Settled(t) && IsDir(t, d)
    ensures |EntriesOf(t.stored, t.dirs, d)| == 2 <==> Removable(AllLinks(t), d)
  {
    hide AllLinks, Count, Wired, Cached, Exact, EntriesOf;
    var entries := EntriesOf(t.stored, t.dirs, d);
    forall n
      ensures (d, n) in AllLinks(t) <==> n in entries
    {
      ParentListed(t, {}, d, n);
    }
    assert |entries| == |entries.Keys|;
    if |entries| == 2 {
      assert entries.Keys != {};
      var n :| n in entries.Keys;
      assert HasDots(AllLinks(t), d) by { assert (d, n) in AllLinks(t); }
      ExactlyTwo(entries.Keys);
      forall k | k in AllLinks(t) && k.0 == d
        ensures IsDot(k.1)
      {
        assert k == (d, k.1);
        assert k.1 in entries.Keys;
      }
    }
    if Removable(AllLinks(t), d) {
      assert forall m :: m in entries.Keys ==> (d, m) in AllLinks(t) && IsDot(m);
      assert entries.Keys == {DOT, DOT_DOT};
    }
  }

  lemma ExactlyTwo(names: set<Name>)
    requires |names| == 2 && DOT in names && DOT_DOT in names
    ensures forall n :: n in names ==> IsDot(n)
  {
    var rest := names - {DOT} - {DOT_DOT};
    assert |rest| == 0;
    assert names == rest + {DOT, DOT_DOT};
  }

  /** The links without directory `d`, which `k` names. */
  function WithoutDir(links: map<Key, nat>, d: nat, k: Key): map<Key, nat> {
    links - {(d, DOT)} - {(d, DOT_DOT)} - {k}
  }

  /** Emptying directory `d` of its dot entries while a handle on it is held. */
  lemma Emptied(t: Tables, d: nat)
    requires Settled(t) && t.dirRefs[d] > 0 && Removable(AllLinks(t), d)
    ensures var a := UnlinkOp(t, d, DOT);
      var b := UnlinkOp(a.t, d, DOT_DOT);
      && a.r == Ok(()) && b.r == Ok(())
      && Reached(t, b.t, {}, AllLinks(t) - {(d, DOT)} - {(d, DOT_DOT)})
  {
    hide AllLinks, Count, Wired, Cached, Exact, Dotted, UnlinkOp, Good, Nlink;
    Unfinish(t, d);
    HeldIsDir(t, 0, 0, {d}, d);
    HeldLive(t, d);
    UnlinkOpGood(t, {d}, d, DOT);
    var a := UnlinkOp(t, d, DOT).t;
    HeldIsDir(a, 0, 0, {d}, d);
    HeldLive(a, d);
    UnlinkOpGood(a, {d}, d, DOT_DOT);
    var b := UnlinkOp(a, d, DOT_DOT).t;
    forall k | k in AllLinks(b)
      ensures k.0 != d
    {
      assert k == (k.0, k.1);
    }
    Finish(b, 0, 0, d);
  }

  lemma HeldLive(t: Tables, d: nat)
    requires IsDir(t, d) && t.dirRefs[d] > 0
    ensures Live(t, d)
  {
  }

  /** The directory gone with its dot entries, or nothing changed and the reason. */
  ghost predicate RmdirEffect(t: Tables, o: Out<()>, parent: nat, name: Name) {
    if |name| > MAX_NAMELEN then o.r == Err(NameTooLong) && Reached(t, o.t, {}, AllLinks(t))
    else if (parent, name) !in AllLinks(t) then o.r == Err(NotFound) && Reached(t, o.t, {}, AllLinks(t))
    else
      var d := AllLinks(t)[(parent, name)];
      if !IsDir(t, d) then o.r == Err(NotDirectory) && Reached(t, o.t, {}, AllLinks(t))
      else if !Removable(AllLinks(t), d) then o.r == Err(NotEmpty) && Reached(t, o.t, {}, AllLinks(t))
      else o.r == Ok(()) && Reached(t, o.t, {}, WithoutDir(AllLinks(t), d, (parent, name)))
  }

  /**
   `rmdir` removes a directory that holds nothing but its dot entries: these, and its entry in the parent. Anything
   else is left as it was.
   */
  lemma RmdirGood(t: Tables, parent: nat, name: Name)
    requires Settled(t) && HasDots(AllLinks(t), parent) && !IsDot(name)
    ensures RmdirEffect(t, Rmdir(t, parent, name), parent, name)
  {
    hide AllLinks, Count, Wired, Cached, Exact, Dotted, UnlinkOp, Good, Nlink, LinksOf, OpenDir, Lookup, Live,
      EntriesOf, DropDir, HasDots, Removable;
    DotsOpen(t, {}, parent);
    LookupGood(t, parent, name);
    var l := Lookup(t, parent, name).t;
    if |name| <= MAX_NAMELEN && (parent, name) in AllLinks(t) {
      var d := AllLinks(t)[(parent, name)];
      NamedLives(t, {}, (parent, name));
      NamedLives(l, {}, (parent, name));
      ReapedKind(t, l, d);
      OpenDirAny(l, {}, d);
      var u := OpenDir(l, d).t;
      if IsDir(t, d) {
        DirRefBack(l, u, DropDir(u, d), d);
        TwoEntries(l, d);
        DropDirGood(u, {}, d);
        if Removable(AllLinks(t), d) {
          RmdirRest(t, u, d, parent, name);
        }
      }
    }
  }

  lemma RmdirRest(t: Tables, u: Tables, d: nat, parent: nat, name: Name)
    requires Settled(u) && u.dirRefs == t.dirRefs + multiset{d} && u.fileRefs == t.fileRefs
    requires Removable(AllLinks(u), d) && HasDots(AllLinks(u), parent) && !IsDot(name) && |name| <= MAX_NAMELEN
    requires (parent, name) in AllLinks(u)
    ensures var a := UnlinkOp(u, d, DOT);
      var b := UnlinkOp(a.t, d, DOT_DOT);
      var c := UnlinkOp(b.t, parent, name);
      && a.r == Ok(()) && b.r == Ok(()) && c.r == Ok(())
      && Reached(t, DropDir(c.t, d), {}, WithoutDir(AllLinks(u), d, (parent, name)))
  {
    hide AllLinks, Count, Wired, Cached, Exact, Dotted, UnlinkOp, Good, Nlink, LinksOf, OpenDir, Live, DropDir,
      Reaped;
    Emptied(u, d);
    var b := UnlinkOp(UnlinkOp(u, d, DOT).t, d, DOT_DOT).t;
    assert parent != d;
    DotsOpen(b, {}, parent);
    UnlinkOpGood(b, {}, parent, name);
    var c := UnlinkOp(b, parent, name).t;
    DropDirGood(c, {}, d);
    DirRefBack(t, c, DropDir(c, d), d);
    ReapedLinks(c, DropDir(c, d));
  }

  lemma ReapedLinks(t: Tables, u: Tables)
    requires Reaped(t, u)
    ensures AllLinks(u) == AllLinks(t)
  {
    hide AllLinks, Nlink;
  }

  // ----- Renaming -----

  /** The links once the target of a rename is out of the way. */
  ghost function Cleared(t: Tables, k: Key): map<Key, nat> {
    if k !in AllLinks(t) then AllLinks(t)
    else if IsDir(t, AllLinks(t)[k]) then WithoutDir(AllLinks(t), AllLinks(t)[k], k)
    else AllLinks(t) - {k}
  }

  /** The target of a rename is in the way: a directory that is not empty. */
  ghost predicate Blocked(t: Tables, k: Key) {
    k in AllLinks(t) && IsDir(t, AllLinks(t)[k]) && !Removable(AllLinks(t), AllLinks(t)[k])
  }

  lemma DisplaceGood(t: Tables, parent: nat, name: Name)
    requires Settled(t) && HasDots(AllLinks(t), parent) && !IsDot(name) && |name| <= MAX_NAMELEN
    ensures var o := Displace(t, parent, name);
      && Reached(t, o.t, {}, if Blocked(t, (parent, name)) then AllLinks(t) else Cleared(t, (parent, name)))
      && o.r == (if Blocked(t, (parent, name)) then Err(NotEmpty) else Ok(()))
  {
    hide AllLinks, Count, Wired, Cached, Exact, Dotted, UnlinkOp, Good, Nlink, LinksOf, Lookup, Live, HasDots,
      Removable, Rmdir;
    DotsOpen(t, {}, parent);
    LookupGood(t, parent, name);
    var l := Lookup(t, parent, name).t;
    if (parent, name) in AllLinks(t) {
      var d := AllLinks(t)[(parent, name)];
      NamedLives(l, {}, (parent, name));
      ReapedKind(t, l, d);
      DotsOpen(l, {}, parent);
      if IsDir(t, d) {
        RmdirGood(l, parent, name);
      } else {
        UnlinkOpGood(l, {}, parent, name);
      }
    }
  }

  /** Clearing the target leaves every other directory and entry alone. */
  lemma ClearedKeeps(t: Tables, k: Key, j: Key)
    requires !Blocked(t, k) && j in AllLinks(t) && j != k && HasDots(AllLinks(t), j.0) && !IsDot(k.1) && !IsDot(j.1)
    ensures j in Cleared(t, k) && Cleared(t, k)[j] == AllLinks(t)[j] && HasDots(Cleared(t, k), j.0)
    ensures HasDots(AllLinks(t), k.0) ==> HasDots(Cleared(t, k), k.0)
    ensures k !in Cleared(t, k)
  {
    hide AllLinks;
    assert k == (k.0, k.1);
  }

  /** The entry moved over a target that is out of the way, or nothing changed and the reason. */
  ghost predicate RenameEffect(t: Tables, o: Out<()>, from: nat, name: Name, to: nat, newName: Name) {
    if |name| > MAX_NAMELEN || |newName| > MAX_NAMELEN then o == Out(t, Err(NameTooLong))
    else if (from, name) !in AllLinks(t) then o.r == Err(NotFound) && Reached(t, o.t, {}, AllLinks(t))
    else if Blocked(t, (to, newName)) then o.r == Err(NotEmpty) && Reached(t, o.t, {}, AllLinks(t))
    else
      && o.r == Ok(())
      && Reached(t, o.t, {}, Cleared(t, (to, newName))[(to, newName) := AllLinks(t)[(from, name)]] - {(from, name)})
  }

  /**
   `rename` between different names: the old entry goes, the new one names the inode, and of the rest only a
   replaced target goes. A target directory that is not empty stops it.
   */
  lemma RenameGood(t: Tables, from: nat, name: Name, to: nat, newName: Name)
    requires Settled(t) && HasDots(AllLinks(t), from) && HasDots(AllLinks(t), to)
    requires !IsDot(name) && !IsDot(newName) && (from, name) != (to, newName)
    ensures RenameEffect(t, Rename(t, from, name, to, newName), from, name, to, newName)
  {
    hide AllLinks, Count, Wired, Cached, Exact, Dotted, UnlinkOp, Good, Nlink, LinksOf, Lookup, Live, HasDots,
      Removable, Displace, OpenDir, Link, Blocked, Cleared;
    if |name| <= MAX_NAMELEN && |newName| <= MAX_NAMELEN {
      DotsOpen(t, {}, from);
      LookupGood(t, from, name);
      var l := Lookup(t, from, name).t;
      if (from, name) in AllLinks(t) {
        var i, k := AllLinks(t)[(from, name)], (to, newName);
        LookupView(t, l, k);
        DisplaceGood(l, to, newName);
        if !Blocked(t, k) {
          ClearedKeeps(l, k, (from, name));
          NamedLives(Displace(l, to, newName).t, {}, (from, name));
          RenameRest(t, Displace(l, to, newName).t, i, from, name, to, newName);
        }
      }
    }
  }

  /** What a lookup leaves for the rest of the operation to see. */
  lemma LookupView(t: Tables, u: Tables, k: Key)
    requires Settled(u) && Reaped(t, u)
    ensures (Blocked(u, k) <==> Blocked(t, k)) && Cleared(u, k) == Cleared(t, k)
  {
    hide AllLinks, Removable, Count;
    if k in AllLinks(u) {
      NamedLives(u, {}, k);
      ReapedKind(t, u, AllLinks(u)[k]);
    }
  }

  lemma RenameRest(t: Tables, u: Tables, i: nat, from: nat, name: Name, to: nat, newName: Name)
    requires Settled(u) && SameRefs(t, u) && HasDots(AllLinks(u), from) && HasDots(AllLinks(u), to)
    requires !IsDot(name) && !IsDot(newName) && |name| <= MAX_NAMELEN && Live(u, i) && (to, newName) !in AllLinks(u)
    ensures var d := OpenDir(u, to);
      && d.r == Ok(()) && to in d.t.dirs
      && var k := Link(d.t, i, to, newName);
      && k.r == Ok(())
      && var v := UnlinkOp(k.t, from, name);
      && v.r == Ok(()) && Reached(t, v.t, {}, AllLinks(u)[(to, newName) := i] - {(from, name)})
  {
    hide AllLinks, Count, Wired, Cached, Exact, Dotted, UnlinkOp, Good, Nlink, LinksOf, Live, OpenDir, Link, Survives,
      CountsExcept, EntriesOf;
    DotsOpen(u, {}, to);
    OpenDirAny(u, {}, to);
    var d := OpenDir(u, to).t;
    ReapedLinks(u, d);
    LiveLater(u, d, {}, i);
    DirRefBack(u, d, DropDir(d, to), to);
    LinkGood(d, {}, i, to, newName);
    var k := Link(d, i, to, newName).t;
    DirRefBack(u, d, k, to);
    DotsOpen(k, {}, from);
    UnlinkOpGood(k, {}, from, name);
  }

  /** The inode of `k` is linked or held without `k`. */
  ghost predicate Stays(t: Tables, k: Key)
    requires k in AllLinks(t)
  {
    var i := AllLinks(t)[k];
    Count(Cleared(t, k), i) > 0 || t.fileRefs[i] > 0 || t.dirRefs[i] > 0
  }

  /** The entry is back but the inode is not. */
  ghost predicate Dangles(t: Tables, k: Key, i: nat) {
    k in AllLinks(t) && AllLinks(t)[k] == i && i !in t.inodes
  }

  /**
   Renaming a name onto itself never keeps it as it was, unless a directory that is not empty stops it. If the inode is
   linked or held otherwise, the call reports success and the name is gone. If not, the inode is destroyed before it is
   linked again: the call fails, and the name is left behind naming a destroyed inode.
   */
  lemma RenameOntoItself(t: Tables, parent: nat, name: Name)
    requires Settled(t) && HasDots(AllLinks(t), parent) && !IsDot(name) && |name| <= MAX_NAMELEN
    requires (parent, name) in AllLinks(t)
    ensures var o, k := Rename(t, parent, name, parent, name), (parent, name);
      if Blocked(t, k) then o.r == Err(NotEmpty) && Reached(t, o.t, {}, AllLinks(t))
      else if Stays(t, k) then o.r == Ok(()) && k !in AllLinks(o.t) && Reached(t, o.t, {}, Cleared(t, k))
      else o.r == Err(Corrupted) && Dangles(o.t, k, AllLinks(t)[k])
  {
    hide AllLinks, Count, Wired, Cached, Exact, Dotted, UnlinkOp, Good, Nlink, LinksOf, Lookup, HasDots, Displace,
      OpenDir, Link, Blocked, Cleared, Stays, Dangles;
    var k := (parent, name);
    var i := AllLinks(t)[k];
    DotsOpen(t, {}, parent);
    LookupGood(t, parent, name);
    var l := Lookup(t, parent, name).t;
    LookupView(t, l, k);
    DisplaceGood(l, parent, name);
    if !Blocked(t, k) {
      ClearedSelf(t, k);
      var u := Displace(l, parent, name).t;
      if Stays(t, k) {
        StaysLive(t, u, k);
        RenameRest(t, u, i, parent, name, parent, name);
        assert Cleared(t, k)[k := i] - {k} == Cleared(t, k);
      } else {
        DisplaceLeaves(l, parent, name);
        StaysNot(t, u, k);
        DyingLink(u, i, parent, name);
      }
    }
  }

  lemma ClearedSelf(t: Tables, k: Key)
    requires k in AllLinks(t) && !Blocked(t, k) && HasDots(AllLinks(t), k.0) && !IsDot(k.1) && IsDir(t, k.0)
    ensures HasDots(Cleared(t, k), k.0) && k !in Cleared(t, k) && AllLinks(t)[k] != k.0
  {
    hide AllLinks;
    assert k == (k.0, k.1);
  }

  lemma StaysLive(t: Tables, u: Tables, k: Key)
    requires k in AllLinks(t) && Stays(t, k) && Reached(t, u, {}, Cleared(t, k))
    ensures Live(u, AllLinks(t)[k])
  {
    hide AllLinks, Cleared, Good;
    var i := AllLinks(t)[k];
    if t.fileRefs[i] > 0 {
      OpenLives(u, {}, i);
    } else if t.dirRefs[i] > 0 {
      HeldIsDir(u, 0, 0, {}, i);
      HeldLive(u, i);
    } else {
      var j := Named(Cleared(t, k), i);
      NamedLives(u, {}, j);
    }
  }

  lemma Named(links: map<Key, nat>, i: nat) returns (k: Key)
    requires Count(links, i) > 0
    ensures k in links && links[k] == i
  {
    k :| k in Naming(links, i);
  }

  lemma StaysNot(t: Tables, u: Tables, k: Key)
    requires k in AllLinks(t) && !Stays(t, k) && Reached(t, u, {}, Cleared(t, k))
    ensures var i := AllLinks(t)[k]; (i in u.inodes ==> Nlink(u, i) == 0) && u.fileRefs[i] == 0 && u.dirRefs[i] == 0
  {
    hide AllLinks, Cleared, Wired, Cached, Dotted;
  }

  /** An inode whose last entry has just been removed is either destroyed or still in the table. */
  ghost predicate Leaving(t: Tables, i: nat) {
    i in t.inodes ==> i in t.files
  }

  /** The entry removed, its inode is in the table. */
  lemma UnlinkLeaves(t: Tables, unfinished: set<nat>, parent: nat, name: Name)
    requires Good(t, 0, 0, unfinished) && Live(t, parent) && (parent in unfinished || !IsDot(name))
      && |name| <= MAX_NAMELEN
    requires (parent, name) in AllLinks(t) && IsDir(t, parent)
    ensures AllLinks(t)[(parent, name)] in UnlinkOp(t, parent, name).t.files
  {
    hide AllLinks, Count, Wired, Cached, Dotted, Exact, Good, LinksOf, HasDots, OpenDir, Nlink, Survives, Open,
      EntriesOf, Live, Unlink, WithEntries;
    OpenDirAny(t, unfinished, parent);
    ParentListed(t, unfinished, parent, name);
    var u := OpenDir(t, parent).t;
    var i := AllLinks(t)[(parent, name)];
    UnlinkIs(u, parent, name);
    RemovedEntry(u, unfinished, parent, name);
    var w := WithEntries(u, parent, u.dirs[parent].entries - {name});
    OpenGood(w, i, -1, unfinished, i);
    Known(Open(w, i).t, i, -1, unfinished, i);
    ReapedCounts(w, Open(w, i).t, i);
  }

  lemma DisplaceLeaves(t: Tables, parent: nat, name: Name)
    requires Settled(t) && HasDots(AllLinks(t), parent) && !IsDot(name) && |name| <= MAX_NAMELEN
    requires (parent, name) in AllLinks(t) && !Blocked(t, (parent, name))
    ensures AllLinks(t)[(parent, name)] in Displace(t, parent, name).t.files
  {
    hide AllLinks, Count, Wired, Cached, Exact, Dotted, UnlinkOp, Good, Nlink, LinksOf, Lookup, Live, HasDots,
      Removable, OpenDir, DropDir;
    DotsOpen(t, {}, parent);
    LookupGood(t, parent, name);
    var l := Lookup(t, parent, name).t;
    var d := AllLinks(t)[(parent, name)];
    NamedLives(l, {}, (parent, name));
    ReapedKind(t, l, d);
    DotsOpen(l, {}, parent);
    if IsDir(t, d) {
      RmdirLeaves(l, parent, name);
    } else {
      UnlinkLeaves(l, {}, parent, name);
    }
  }

  lemma RmdirLeaves(t: Tables, parent: nat, name: Name)
    requires Settled(t) && HasDots(AllLinks(t), parent) && !IsDot(name) && |name| <= MAX_NAMELEN
    requires (parent, name) in AllLinks(t) && Removable(AllLinks(t), AllLinks(t)[(parent, name)])
    ensures AllLinks(t)[(parent, name)] in Rmdir(t, parent, name).t.files
  {
    hide AllLinks, Count, Wired, Cached, Exact, Dotted, UnlinkOp, Good, Nlink, LinksOf, OpenDir, Lookup, Live,
      EntriesOf;
    DotsOpen(t, {}, parent);
    LookupGood(t, parent, name);
    var l := Lookup(t, parent, name).t;
    var d := AllLinks(t)[(parent, name)];
    DotsOpen(l, {}, d);
    NamedLives(l, {}, (parent, name));
    OpenDirAny(l, {}, d);
    var u := OpenDir(l, d).t;
    TwoEntries(l, d);
    RmdirRest(l, u, d, parent, name);
    Emptied(u, d);
    var b := UnlinkOp(UnlinkOp(u, d, DOT).t, d, DOT_DOT).t;
    assert parent != d;
    DotsOpen(b, {}, parent);
    UnlinkLeaves(b, {}, parent, name);
  }

  // ----- Linking an inode that is about to be destroyed -----

  /** Closing files does not look at entries. */
  lemma {:induction false} CloseFilesAnyEntries(t: Tables, dirs: map<nat, MemDir>)
    requires dirs.Keys == t.dirs.Keys
    ensures CloseFiles(t.(dirs := dirs)) == CloseFiles(t).(dirs := dirs)
    decreases |t.closeFiles|
  {
    hide CloseFile;
    if t.closeFiles != [] {
      CloseFileAnyEntries(t, dirs);
      CloseFilesAnyEntries(CloseFile(t), dirs);
    }
  }

  lemma CloseFileAnyEntries(t: Tables, dirs: map<nat, MemDir>)
    requires dirs.Keys == t.dirs.Keys && t.closeFiles != []
    ensures CloseFile(t.(dirs := dirs)) == CloseFile(t).(dirs := dirs) && CloseFile(t).dirs == t.dirs
    ensures |CloseFile(t).closeFiles| < |t.closeFiles|
  {
    hide CloseFile, Dropped;
    CloseFileIs(t);
    CloseFileIs(t.(dirs := dirs));
    var i := t.closeFiles[|t.closeFiles| - 1];
    if i in t.files {
      DroppedAnyEntries(t, dirs, i);
    }
  }

  lemma DroppedAnyEntries(t: Tables, dirs: map<nat, MemDir>, i: nat)
    requires i in t.files
    ensures Dropped(t.(dirs := dirs), i) == Dropped(t, i).(dirs := dirs) && Dropped(t, i).dirs == t.dirs
    ensures Dropped(t, i).closeFiles == t.closeFiles
  {
    hide FlushFile;
    FlushAnyEntries(t, dirs, i);
  }

  lemma FlushAnyEntries(t: Tables, dirs: map<nat, MemDir>, i: nat)
    requires i in t.files
    ensures FlushFile(t.(dirs := dirs), i) == FlushFile(t, i).(dirs := dirs) && i in FlushFile(t, i).files
    ensures FlushFile(t, i).dirs == t.dirs && FlushFile(t, i).closeFiles == t.closeFiles
  {
  }

  /** Opening the parent closes what is pending, or leaves the dying inode pending. */
  lemma DyingOpen(t: Tables, parent: nat, i: nat)
    requires Settled(t) && Leaving(t, i) && IsDir(t, parent) && Live(t, parent) && i != parent
    requires (i in t.inodes ==> Nlink(t, i) == 0) && t.fileRefs[i] == 0 && t.dirRefs[i] == 0
    ensures var d := OpenDir(t, parent).t; Leaving(d, i) && i !in d.dirs
  {
    hide AllLinks, Count, Wired, Cached, Exact, Dotted, Good, Nlink, CloseDirs, CloseFiles;
    CloseDirsGood(t, {});
    var u := CloseDirs(t);
    ReapedNlinks(t, u);
    CloseFilesGood(u, 0, 0, {});
    ReapedNlinks(u, CloseFiles(u));
  }

  lemma DyingLink(t: Tables, i: nat, parent: nat, name: Name)
    requires Settled(t) && Leaving(t, i) && HasDots(AllLinks(t), parent) && i != parent
    requires (parent, name) !in AllLinks(t)
    requires (i in t.inodes ==> Nlink(t, i) == 0) && t.fileRefs[i] == 0 && t.dirRefs[i] == 0
    ensures var d := OpenDir(t, parent);
      && d.r == Ok(()) && parent in d.t.dirs
      && var k := Link(d.t, i, parent, name);
      && k.r == Err(Corrupted) && Dangles(k.t, (parent, name), i)
  {
    hide AllLinks, Count, Wired, Cached, Exact, Dotted, Good, Nlink, OpenDir, LinksOf, EntriesOf, Link, Live, HasDots;
    DotsOpen(t, {}, parent);
    OpenDirAny(t, {}, parent);
    DyingOpen(t, parent, i);
    var d := OpenDir(t, parent).t;
    ReapedNlinks(t, d);
    ReapedLinks(t, d);
    DyingLinkAt(d, i, parent, name);
  }

  lemma DyingLinkAt(d: Tables, i: nat, parent: nat, name: Name)
    requires Settled(d) && Leaving(d, i) && i !in d.dirs && parent in d.dirs && (parent, name) !in AllLinks(d)
    requires (i in d.inodes ==> Nlink(d, i) == 0) && d.fileRefs[i] == 0
    ensures var k := Link(d, i, parent, name); k.r == Err(Corrupted) && Dangles(k.t, (parent, name), i)
  {
    hide Count, Wired, Cached, Exact, Dotted, Nlink, LinksOf, EntriesOf, CloseFiles;
    EntryListed(d, {}, parent, name);
    var dirs := d.dirs[parent := MemDir(d.dirs[parent].entries[name := i], true)];
    CloseFilesAnyEntries(d, dirs);
    CloseFilesGood(d, 0, 0, {});
    var c := CloseFiles(d);
    ReapedNlinks(d, c);
    DirIsStored(c, parent);
    LinksWith(c.stored, c.dirs, parent, name, i);
  }

  lemma OpenLives(t: Tables, unfinished: set<nat>, i: nat)
    requires Good(t, 0, 0, unfinished) && t.fileRefs[i] > 0
    ensures Live(t, i)
  {
    hide AllLinks, Exact, Dotted;
  }
}
