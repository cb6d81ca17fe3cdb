/** No operation changes the kind of an inode, and only `mknod` and `mkdir` bring one into being. */
module Kinds {
  import opened Results
  import opened Links
  import opened Tables
  import opened Operations

  /** `kinds` has the kind of every inode, on disk and in memory, and no file is without an inode. */
  ghost predicate KindsIn(t: Tables, kinds: map<nat, bool>) {
    && (forall i :: i in t.inodes ==> i in kinds && t.inodes[i].isDir == kinds[i])
    && (forall i :: i in t.files ==> i in t.inodes && t.files[i].isDir == kinds[i])
  }

  // ----- Closing -----

  lemma FlushFileKinds(t: Tables, kinds: map<nat, bool>, i: nat)
    requires KindsIn(t, kinds) && i in t.files
    ensures KindsIn(FlushFile(t, i), kinds) && i in FlushFile(t, i).files
  {
  }

  lemma DroppedKinds(t: Tables, kinds: map<nat, bool>, i: nat)
    requires KindsIn(t, kinds) && i in t.files
    ensures KindsIn(Dropped(t, i), kinds)
  {
    hide FlushFile;
    FlushFileKinds(t, kinds, i);
  }

  lemma {:induction false} CloseFilesKinds(t: Tables, kinds: map<nat, bool>)
    requires KindsIn(t, kinds)
    ensures KindsIn(CloseFiles(t), kinds)
    decreases |t.closeFiles|
  {
    hide Dropped, Held;
    if t.closeFiles != [] {
      var i := t.closeFiles[|t.closeFiles| - 1];
      var u := t.(closeFiles := t.closeFiles[..|t.closeFiles| - 1]);
      if i in u.files {
        DroppedKinds(u, kinds, i);
        DroppedPending(u, i);
      }
      CloseFilesKinds(CloseFile(t), kinds);
    }
  }

  lemma DroppedPending(t: Tables, i: nat)
    requires i in t.files
    ensures Dropped(t, i).closeFiles == t.closeFiles
  {
  }

  lemma {:induction false} CloseDirsKinds(t: Tables, kinds: map<nat, bool>)
    requires KindsIn(t, kinds)
    ensures KindsIn(CloseDirs(t), kinds)
    decreases |t.closeDirs|
  {
    if t.closeDirs != [] {
      CloseDirKinds(t, kinds);
      CloseDirsKinds(CloseDir(t), kinds);
    }
  }

  lemma CloseDirKinds(t: Tables, kinds: map<nat, bool>)
    requires KindsIn(t, kinds) && t.closeDirs != []
    ensures KindsIn(CloseDir(t), kinds) && |CloseDir(t).closeDirs| < |t.closeDirs|
  {
  }

  // ----- Handles -----

  lemma OpenKinds(t: Tables, kinds: map<nat, bool>, i: nat)
    requires KindsIn(t, kinds)
    ensures KindsIn(Open(t, i).t, kinds)
  {
    hide CloseFiles;
    CloseFilesKinds(t, kinds);
  }

  /** Handles, entries and pending lists do not matter. */
  lemma SameKinds(t: Tables, u: Tables, kinds: map<nat, bool>)
    requires KindsIn(t, kinds) && u.inodes == t.inodes && u.files == t.files
    ensures KindsIn(u, kinds)
  {
  }

  lemma OpenDirKinds(t: Tables, kinds: map<nat, bool>, d: nat)
    requires KindsIn(t, kinds)
    ensures KindsIn(OpenDir(t, d).t, kinds)
  {
    hide CloseDirs, Open;
    CloseDirsKinds(t, kinds);
    OpenKinds(CloseDirs(t), kinds, d);
  }

  lemma GetAttrKinds(t: Tables, kinds: map<nat, bool>, i: nat)
    requires KindsIn(t, kinds)
    ensures KindsIn(GetAttr(t, i).t, kinds)
  {
    hide Open;
    OpenKinds(t, kinds, i);
  }

  lemma LookupKinds(t: Tables, kinds: map<nat, bool>, parent: nat, name: Name)
    requires KindsIn(t, kinds)
    ensures KindsIn(Lookup(t, parent, name).t, kinds)
  {
    hide OpenDir, GetAttr;
    OpenDirKinds(t, kinds, parent);
    var d := OpenDir(t, parent);
    if |name| <= MAX_NAMELEN && d.r.Ok? && name in d.t.dirs[parent].entries {
      GetAttrKinds(d.t, kinds, d.t.dirs[parent].entries[name]);
    }
  }

  // ----- Links -----

  lemma EntriesKinds(t: Tables, kinds: map<nat, bool>, d: nat, entries: map<Name, nat>)
    requires KindsIn(t, kinds)
    ensures KindsIn(WithEntries(t, d, entries), kinds) && KindsIn(DropDir(t, d), kinds)
  {
  }

  lemma AdjustedKinds(t: Tables, kinds: map<nat, bool>, i: nat, n: nat, parent: nat)
    requires KindsIn(t, kinds) && i in t.files
    ensures KindsIn(DropDir(DropFile(WithNlink(t, i, n), i), parent), kinds)
  {
  }

  lemma LinkKinds(t: Tables, kinds: map<nat, bool>, i: nat, parent: nat, name: Name)
    requires KindsIn(t, kinds) && parent in t.dirs
    ensures KindsIn(Link(t, i, parent, name).t, kinds)
  {
    hide Open, WithEntries, WithNlink, DropFile, DropDir, KindsIn;
    var entries := t.dirs[parent].entries;
    EntriesKinds(t, kinds, parent, entries);
    EntriesKinds(WithEntries(t, parent, entries), kinds, parent, entries);
    if name !in entries {
      EntriesKinds(t, kinds, parent, entries[name := i]);
      OpenKinds(WithEntries(t, parent, entries[name := i]), kinds, i);
      var o := Open(WithEntries(t, parent, entries[name := i]), i).t;
      EntriesKinds(o, kinds, parent, entries);
      if i in o.files {
        AdjustedKinds(o, kinds, i, o.files[i].nlink + 1, parent);
      }
    }
  }

  lemma UnlinkKinds(t: Tables, kinds: map<nat, bool>, parent: nat, name: Name)
    requires KindsIn(t, kinds) && parent in t.dirs
    ensures KindsIn(Unlink(t, parent, name).t, kinds)
  {
    hide Open, WithEntries, WithNlink, DropFile, DropDir, KindsIn;
    var entries := t.dirs[parent].entries;
    EntriesKinds(t, kinds, parent, entries);
    if name in entries {
      EntriesKinds(t, kinds, parent, entries - {name});
      OpenKinds(WithEntries(t, parent, entries - {name}), kinds, entries[name]);
      var o := Open(WithEntries(t, parent, entries - {name}), entries[name]).t;
      EntriesKinds(o, kinds, parent, entries);
      if entries[name] in o.files && o.files[entries[name]].nlink > 0 {
        AdjustedKinds(o, kinds, entries[name], o.files[entries[name]].nlink - 1, parent);
      }
    }
  }

  lemma LinkAtKinds(t: Tables, kinds: map<nat, bool>, i: nat, parent: nat, name: Name)
    requires KindsIn(t, kinds) && parent in t.dirs
    ensures KindsIn(LinkAt(t, i, parent, name).t, kinds)
  {
    hide Link, GetAttr, KindsIn;
    LinkKinds(t, kinds, i, parent, name);
    GetAttrKinds(Link(t, i, parent, name).t, kinds, i);
  }

  lemma LinkOpKinds(t: Tables, kinds: map<nat, bool>, i: nat, parent: nat, name: Name)
    requires KindsIn(t, kinds)
    ensures KindsIn(LinkOp(t, i, parent, name).t, kinds) && KindsIn(LinkIn(t, i, parent, name).t, kinds)
  {
    hide OpenDir, LinkAt, KindsIn;
    OpenDirKinds(t, kinds, parent);
    if OpenDir(t, parent).r.Ok? {
      LinkAtKinds(OpenDir(t, parent).t, kinds, i, parent, name);
    }
  }

  lemma UnlinkOpKinds(t: Tables, kinds: map<nat, bool>, parent: nat, name: Name)
    requires KindsIn(t, kinds)
    ensures KindsIn(UnlinkOp(t, parent, name).t, kinds)
  {
    hide OpenDir, Unlink, KindsIn;
    OpenDirKinds(t, kinds, parent);
    if OpenDir(t, parent).r.Ok? {
      UnlinkKinds(OpenDir(t, parent).t, kinds, parent, name);
    }
  }

  lemma RmdirKinds(t: Tables, kinds: map<nat, bool>, parent: nat, name: Name)
    requires KindsIn(t, kinds)
    ensures KindsIn(Rmdir(t, parent, name).t, kinds)
  {
    hide OpenDir, Lookup, UnlinkOp, DropDir, KindsIn;
    LookupKinds(t, kinds, parent, name);
    var l := Lookup(t, parent, name);
    if l.r.Ok? {
      var i := l.r.value.ino;
      OpenDirKinds(l.t, kinds, i);
      var d := OpenDir(l.t, i).t;
      EntriesKinds(d, kinds, i, map[]);
      UnlinkOpKinds(d, kinds, i, DOT);
      var a := UnlinkOp(d, i, DOT).t;
      EntriesKinds(a, kinds, i, map[]);
      UnlinkOpKinds(a, kinds, i, DOT_DOT);
      var b := UnlinkOp(a, i, DOT_DOT).t;
      EntriesKinds(b, kinds, i, map[]);
      UnlinkOpKinds(b, kinds, parent, name);
      EntriesKinds(UnlinkOp(b, parent, name).t, kinds, i, map[]);
    }
  }

  lemma DisplaceKinds(t: Tables, kinds: map<nat, bool>, parent: nat, name: Name)
    requires KindsIn(t, kinds)
    ensures KindsIn(Displace(t, parent, name).t, kinds)
  {
    hide Lookup, UnlinkOp, Rmdir, KindsIn;
    LookupKinds(t, kinds, parent, name);
    var l := Lookup(t, parent, name).t;
    RmdirKinds(l, kinds, parent, name);
    UnlinkOpKinds(l, kinds, parent, name);
  }

  lemma RenameKinds(t: Tables, kinds: map<nat, bool>, from: nat, name: Name, to: nat, newName: Name)
    requires KindsIn(t, kinds)
    ensures KindsIn(Rename(t, from, name, to, newName).t, kinds)
  {
    hide Lookup, Displace, OpenDir, Link, UnlinkOp, KindsIn;
    LookupKinds(t, kinds, from, name);
    var l := Lookup(t, from, name);
    DisplaceKinds(l.t, kinds, to, newName);
    var e := Displace(l.t, to, newName);
    OpenDirKinds(e.t, kinds, to);
    var d := OpenDir(e.t, to);
    if l.r.Ok? && d.r.Ok? {
      LinkKinds(d.t, kinds, l.r.value.ino, to, newName);
      UnlinkOpKinds(Link(d.t, l.r.value.ino, to, newName).t, kinds, from, name);
    }
  }

  // ----- New inodes -----

  lemma MknodKinds(t: Tables, kinds: map<nat, bool>, i: nat, isDir: bool)
    requires KindsIn(t, kinds) && i !in t.inodes
    ensures KindsIn(Mknod(t, Some(i), isDir).t, kinds[i := isDir])
  {
  }

  lemma MknodOpKinds(t: Tables, kinds: map<nat, bool>, slot: Option<nat>, parent: nat, name: Name, isDir: bool)
    requires KindsIn(t, kinds) && (slot.Some? ==> slot.value !in OpenDir(t, parent).t.inodes)
    ensures KindsIn(MknodOp(t, slot, parent, name, isDir).t,
                    if |name| > MAX_NAMELEN || slot.None? then kinds else kinds[slot.value := isDir])
  {
    hide OpenDir, Mknod, LinkAt;
    OpenDirKinds(t, kinds, parent);
    var d := OpenDir(t, parent);
    if d.r.Ok? {
      MknodIs(d.t, slot, isDir);
      if slot.Some? {
        MknodKinds(d.t, kinds, slot.value, isDir);
        LinkAtKinds(Mknod(d.t, slot, isDir).t, kinds[slot.value := isDir], slot.value, parent, name);
      }
    }
  }

  lemma MkdirKinds(t: Tables, kinds: map<nat, bool>, i: nat, parent: nat)
    requires KindsIn(t, kinds) && i !in t.inodes
    ensures KindsIn(Mkdir(t, Some(i), parent).t, kinds[i := true])
  {
    hide OpenDir, Mknod, Link;
    var now := kinds[i := true];
    MknodIs(t, Some(i), true);
    MknodKinds(t, kinds, i, true);
    var m := Mknod(t, Some(i), true).t;
    OpenDirKinds(m, now, i);
    var d := OpenDir(m, i);
    if d.r.Ok? {
      var c := d.t.(dirRefs := d.t.dirRefs + multiset{i});
      SameKinds(d.t, c, now);
      LinkKinds(c, now, i, i, DOT);
      LinkKinds(Link(c, i, i, DOT).t, now, parent, i, DOT_DOT);
    }
  }

  lemma MkdirOpKinds(t: Tables, kinds: map<nat, bool>, slot: Option<nat>, parent: nat, name: Name)
    requires KindsIn(t, kinds) && (slot.Some? ==> slot.value !in t.inodes)
    ensures KindsIn(MkdirOp(t, slot, parent, name).t,
                    if |name| > MAX_NAMELEN || slot.None? then kinds else kinds[slot.value := true])
  {
    hide Mkdir, LinkIn, KindsIn;
    MkdirIsNone(t, parent);
    if slot.Some? {
      MkdirKinds(t, kinds, slot.value, parent);
      var m := Mkdir(t, slot, parent);
      if m.r.Ok? {
        LinkOpKinds(m.t, kinds[slot.value := true], m.r.value, parent, name);
      }
    }
  }

  /** A state that only lost inodes. */
  lemma ReapedKinds(t: Tables, u: Tables, kinds: map<nat, bool>)
    requires KindsIn(t, kinds) && Reaped(t, u) && Cached(u)
    ensures KindsIn(u, kinds)
  {
    hide AllLinks, Nlink;
  }
}
