/**
 The mounted file system as the source keeps it: tables and pending lists updated in place (lib.rs), and the calls of
 `Handle` on them (ops.rs). Every method leaves exactly the state of its specification function; called as the kernel
 may call it, it keeps the invariant and has the effect its contract states on entries, result and handles.
 */
module Mounting {
  import opened Results
  import opened Links
  import opened Tables
  import opened Operations
  import opened Syncing
  import opened Histories
  import opened Trees
  import T = Tables

  class Mount {
    var inodes: map<nat, Meta>
    var stored: map<nat, map<Name, nat>>
    var files: map<nat, MemFile>
    var dirs: map<nat, MemDir>
    var fileRefs: multiset<nat>
    var dirRefs: multiset<nat>
    var closeFiles: seq<nat>
    var closeDirs: seq<nat>

    function View(): Tables
      reads this
    {
      Tables(inodes, stored, files, dirs, fileRefs, dirRefs, closeFiles, closeDirs)
    }

    /** Tables, disk, link counts and pending lists agree; no call is in progress. */
    ghost predicate Valid()
      reads this
    {
      Settled(View())
    }

    constructor ()
      ensures Valid() && View() == Tables(map[], map[], map[], map[], multiset{}, multiset{}, [], [])
    {
      inodes, stored, files, dirs := map[], map[], map[], map[];
      fileRefs, dirRefs, closeFiles, closeDirs := multiset{}, multiset{}, [], [];
      new;
      EmptySettled(View());
    }

    // ----- Flushing and closing -----

    method FlushInode(ino: nat)
      requires ino in files
      modifies this`inodes, this`files
      ensures View() == FlushFile(old(View()), ino)
    {
      var f := files[ino];
      if f.dirty && f.nlink > 0 {
        inodes := inodes[ino := Meta(f.nlink, f.isDir)];
        files := files[ino := f.(dirty := false)];
      }
    }

    /** The file's inode written back, or destroyed if it has no link, and the file dropped from the table. */
    method DropFromTable(ino: nat)
      requires ino in files
      modifies this`inodes, this`stored, this`files
      ensures View() == Dropped(old(View()), ino)
    {
      FlushInode(ino);
      if files[ino].nlink == 0 {
        inodes, stored := inodes - {ino}, stored - {ino};
      }
      files := files - {ino};
    }

    method CloseFilesInList()
      modifies this
      ensures View() == CloseFiles(old(View()))
      ensures old(Valid()) ==> Valid() && FilesClosed(old(View()), View())
    {
      hide Good, FilesClosed;
      CloseFilesInListLegal(View());
      hide Dropped;
      while closeFiles != []
        invariant CloseFiles(View()) == CloseFiles(old(View()))
        decreases |closeFiles|
      {
        ghost var before := View();
        var ino := closeFiles[|closeFiles| - 1];
        closeFiles := closeFiles[..|closeFiles| - 1];
        if ino in files && fileRefs[ino] == 0 && ino !in dirs {
          DropFromTable(ino);
        }
        assert View() == CloseFile(before);
      }
    }

    method FlushEntries(d: nat)
      requires d in dirs && d in files
      modifies this`stored, this`files, this`dirs
      ensures View() == FlushDir(old(View()), d)
    {
      if dirs[d].dirty {
        stored := stored[d := dirs[d].entries];
        files := files[d := files[d].(dirty := true)];
        dirs := dirs[d := dirs[d].(dirty := false)];
      }
    }

    /** The directory written back and dropped from the table; it lets go of its file. */
    method DropDirFromTable(d: nat)
      requires d in dirs && d in files
      modifies this`stored, this`files, this`dirs, this`closeFiles
      ensures View() == Shut(old(View()), d)
    {
      FlushEntries(d);
      dirs := dirs - {d};
      closeFiles := closeFiles + [d];
    }

    method CloseDirsInList()
      modifies this
      ensures View() == CloseDirs(old(View()))
      ensures old(Valid()) ==> Valid() && DirsClosed(old(View()), View())
    {
      hide Good, DirsClosed;
      CloseDirsInListLegal(View());
      hide Shut;
      while closeDirs != []
        invariant CloseDirs(View()) == CloseDirs(old(View()))
        decreases |closeDirs|
      {
        ghost var before := View();
        var d := closeDirs[|closeDirs| - 1];
        closeDirs := closeDirs[..|closeDirs| - 1];
        if d in dirs && d in files && dirRefs[d] == 0 {
          DropDirFromTable(d);
        }
        assert View() == CloseDir(before);
      }
    }

    method ApplyPending()
      modifies this
      ensures View() == ApplyReleases(old(View()))
      ensures old(Valid()) ==> Valid() && ReleaseEffect(old(View()), View())
    {
      hide Good, ReleaseEffect, FilesClosed, DirsClosed;
      ApplyPendingLegal(View());
      CloseDirsInList();
      CloseFilesInList();
    }

    // ----- Handles -----

    method OpenFile(ino: nat) returns (r: DkResult<()>)
      modifies this
      ensures Out(View(), r) == Open(old(View()), ino)
      ensures old(Valid() && Live(View(), ino)) ==> Valid() && OpenEffect(old(View()), Out(View(), r), 0, 0, {}, ino)
    {
      hide Good, OpenEffect, FilesClosed, Live;
      OpenFileLegal(View(), ino);
      CloseFilesInList();
      if ino !in files {
        if ino !in inodes {
          return Err(Corrupted);
        }
        files := files[ino := MemFile(inodes[ino].nlink, inodes[ino].isDir, false)];
      }
      fileRefs := fileRefs + multiset{ino};
      return Ok(());
    }

    method ReleaseFile(ino: nat)
      modifies this`closeFiles, this`fileRefs
      ensures View() == DropFile(old(View()), ino)
      ensures old(Valid()) && old(fileRefs)[ino] > 0 ==>
        Valid() && View().fileRefs == old(View()).fileRefs - multiset{ino}
    {
      hide Good;
      ReleaseFileLegal(View(), ino);
      closeFiles := closeFiles + [ino];
      fileRefs := fileRefs - multiset{ino};
    }

    method OpenDirectory(ino: nat) returns (r: DkResult<()>)
      modifies this
      ensures Out(View(), r) == OpenDir(old(View()), ino)
      ensures old(Valid() && Legal(View(), CallOpenDir(ino))) ==>
        Valid() && OpenDirEffect(old(View()), Out(View(), r), {}, ino)
    {
      hide Good, Legal, OpenDirEffect, OpenEffect, Live, DirsClosed, CloseDirs, Open;
      OpenDirectoryLegal(View(), ino);
      CloseDirsInList();
      if ino !in dirs {
        r := LoadDirectory(ino);
        return;
      }
      dirRefs := dirRefs + multiset{ino};
      return Ok(());
    }

    /** The part of `open_dir` for a directory that is not in memory. */
    method LoadDirectory(ino: nat) returns (r: DkResult<()>)
      requires ino !in dirs
      modifies this
      ensures Out(View(), r) == LoadedDir(old(View()), ino)
    {
      hide Good, OpenEffect, Live, Open, DropFile;
      var f := OpenFile(ino);
      if f.Err? {
        return f;
      }
      if ino !in files || !files[ino].isDir || ino !in stored {
        ReleaseFile(ino);
        return Err(NotDirectory);
      }
      dirs := dirs[ino := MemDir(stored[ino], false)];
      fileRefs, dirRefs := fileRefs - multiset{ino}, dirRefs + multiset{ino};
      return Ok(());
    }

    method ReleaseDir(ino: nat)
      modifies this`closeDirs, this`dirRefs
      ensures View() == DropDir(old(View()), ino)
      ensures old(Valid()) && old(dirRefs)[ino] > 0 ==> Valid() && View().dirRefs == old(View()).dirRefs - multiset{ino}
    {
      hide Good;
      ReleaseDirLegal(View(), ino);
      closeDirs := closeDirs + [ino];
      dirRefs := dirRefs - multiset{ino};
    }

    // ----- Links -----

    /** `entries` changed through a handle. */
    method SetEntries(d: nat, entries: map<Name, nat>)
      modifies this`dirs
      ensures View() == WithEntries(old(View()), d, entries)
    {
      dirs := dirs[d := MemDir(entries, true)];
    }

    /** `inode.nlink` changed through a handle, which is then dropped. */
    method SetNlink(ino: nat, n: nat)
      requires ino in files
      modifies this`files, this`closeFiles, this`fileRefs
      ensures View() == DropFile(WithNlink(old(View()), ino, n), ino)
    {
      files := files[ino := files[ino].(nlink := n, dirty := true)];
      ReleaseFile(ino);
    }

    /** The count of an inode raised through a handle of its own. */
    method RaiseLinks(ino: nat) returns (r: DkResult<()>)
      modifies this
      ensures var o := Open(old(View()), ino);
        Out(View(), r) == if o.r.Err? || ino !in o.t.files then o
                          else Out(DropFile(WithNlink(o.t, ino, o.t.files[ino].nlink + 1), ino), Ok(()))
    {
      hide Open, OpenEffect, Live, WithNlink, DropFile;
      r := OpenFile(ino);
      if r.Ok? && ino in files {
        SetNlink(ino, files[ino].nlink + 1);
        r := Ok(());
      }
    }

    /** The count of an inode lowered through a handle of its own; it is never lowered below 0. */
    method LowerLinks(ino: nat) returns (r: DkResult<()>)
      modifies this
      ensures var o := Open(old(View()), ino);
        Out(View(), r) == if o.r.Err? || ino !in o.t.files || o.t.files[ino].nlink == 0 then o
                          else Out(DropFile(WithNlink(o.t, ino, o.t.files[ino].nlink - 1), ino), Ok(()))
    {
      hide Open, OpenEffect, Live, WithNlink, DropFile;
      r := OpenFile(ino);
      if r.Ok? && ino in files && files[ino].nlink > 0 {
        SetNlink(ino, files[ino].nlink - 1);
        r := Ok(());
      }
    }

    method AddLink(ino: nat, parent: nat, name: Name) returns (r: DkResult<()>)
      requires parent in dirs
      modifies this
      ensures Out(View(), r) == T.Link(old(View()), ino, parent, name)
      ensures old(Valid() && Survives(View(), ino) && HasDots(AllLinks(View()), parent) && dirRefs[parent] > 0) ==>
        Valid() && AddLinkEffect(old(View()), Out(View(), r), {}, ino, parent, name)
    {
      hide Good, AddLinkEffect, Survives, HasDots, AllLinks;
      AddLinkLegal(View(), ino, parent, name);
      hide Open, CloseFiles, CloseDirs, WithEntries, WithNlink, DropFile, DropDir, OpenEffect, Live;
      var entries := dirs[parent].entries;
      if name in entries {
        SetEntries(parent, entries);
        r := Err(AlreadyExists);
      } else {
        SetEntries(parent, entries[name := ino]);
        r := RaiseLinks(ino);
      }
      ReleaseDir(parent);
    }

    method RemoveLink(parent: nat, name: Name) returns (r: DkResult<()>)
      requires parent in dirs
      modifies this
      ensures Out(View(), r) == T.Unlink(old(View()), parent, name)
      ensures old(Valid() && dirRefs[parent] > 0) && !IsDot(name) ==>
        Valid() && RemoveLinkEffect(old(View()), Out(View(), r), {}, parent, name)
    {
      hide Good, RemoveLinkEffect;
      RemoveLinkLegal(View(), parent, name);
      hide Open, CloseFiles, CloseDirs, WithEntries, WithNlink, DropFile, DropDir, OpenEffect, Live;
      var entries := dirs[parent].entries;
      r := Ok(());
      if name in entries {
        var ino := entries[name];
        SetEntries(parent, entries - {name});
        r := LowerLinks(ino);
      }
      ReleaseDir(parent);
    }

    method MakeNode(slot: Option<nat>, isDir: bool) returns (r: DkResult<nat>)
      modifies this`inodes, this`stored
      ensures Out(View(), r) == T.Mknod(old(View()), slot, isDir)
      ensures old(Valid()) && slot.Some? && slot.value !in old(inodes) ==>
        Valid() && MakeNodeEffect(old(View()), View(), {}, slot.value, isDir)
    {
      hide Good, MakeNodeEffect;
      MakeNodeLegal(View(), slot, isDir);
      if slot.None? {
        return Err(Exhausted);
      }
      inodes := inodes[slot.value := Meta(0, isDir)];
      if isDir {
        stored := stored[slot.value := map[]];
      }
      return Ok(slot.value);
    }

    method MakeDir(slot: Option<nat>, parent: nat) returns (r: DkResult<nat>)
      modifies this
      ensures Out(View(), r) == Operations.Mkdir(old(View()), slot, parent)
      ensures old(Valid()) && slot.Some? && slot.value !in old(inodes) ==>
        (parent == slot.value || old(HasDots(AllLinks(View()), parent))) ==>
        Valid() && MakeDirEffect(old(View()), Out(View(), r), slot.value, parent)
    {
      hide Good, MakeDirEffect, MakeNodeEffect, AddLinkEffect, OpenDirEffect, HasDots, AllLinks, Survives, Legal;
      MakeDirLegal(View(), slot, parent);
      r := MakeNode(slot, true);
      if r.Err? {
        return;
      }
      var ino := r.value;
      var d := OpenDirectory(ino);
      if d.Err? {
        return Err(d.error);
      }
      dirRefs := dirRefs + multiset{ino};
      d := AddLink(ino, ino, DOT);
      if d.Err? {
        ReleaseDir(ino);
        return Err(d.error);
      }
      d := AddLink(parent, ino, DOT_DOT);
      return if d.Err? then Err(d.error) else Ok(ino);
    }

    // ----- The calls of `Handle` -----

    method Stat(ino: nat) returns (r: DkResult<Attr>)
      modifies this
      ensures Out(View(), r) == Operations.GetAttr(old(View()), ino)
      ensures old(Valid() && Legal(View(), CallGetAttr(ino))) ==>
        Valid() && StatEffect(old(View()), Out(View(), r), {}, ino)
    {
      hide Good, Legal, StatEffect;
      StatLegal(View(), ino);
      var f := OpenFile(ino);
      if f.Err? {
        return Err(f.error);
      }
      if ino !in files {
        return Err(Corrupted);
      }
      r := Ok(Attr(ino, files[ino].nlink, files[ino].isDir));
      ReleaseFile(ino);
    }

    method LookUp(parent: nat, name: Name) returns (r: DkResult<Attr>)
      modifies this
      ensures Out(View(), r) == Operations.Lookup(old(View()), parent, name)
      ensures old(Valid() && Legal(View(), CallLookup(parent, name))) ==>
        Valid() && LookupEffect(old(View()), Out(View(), r), parent, name)
    {
      hide Good, Legal, LookupEffect;
      LookUpLegal(View(), parent, name);
      if |name| > MAX_NAMELEN {
        return Err(NameTooLong);
      }
      var d := OpenDirectory(parent);
      if d.Err? {
        return Err(d.error);
      }
      var entries := dirs[parent].entries;
      if name in entries {
        r := Stat(entries[name]);
      } else {
        r := Err(NotFound);
      }
      ReleaseDir(parent);
    }

    method LinkNode(ino: nat, parent: nat, name: Name) returns (r: DkResult<Attr>)
      requires parent in dirs
      modifies this
      ensures Out(View(), r) == LinkAt(old(View()), ino, parent, name)
    {
      var l := AddLink(ino, parent, name);
      if l.Err? {
        return Err(l.error);
      }
      r := Stat(ino);
    }

    method Mknod(slot: Option<nat>, parent: nat, name: Name, isDir: bool) returns (r: DkResult<Attr>)
      modifies this
      ensures Out(View(), r) == MknodOp(old(View()), slot, parent, name, isDir)
      ensures old(Valid() && Legal(View(), CallMknod(slot, parent, name, isDir))) ==>
        Valid() && MknodEffect(old(View()), Out(View(), r), slot, parent, name, isDir)
    {
      hide Good, Legal, MknodEffect, OpenDir, LinkAt, OpenDirEffect, MakeNodeEffect;
      MknodLegal(View(), slot, parent, name, isDir);
      if |name| > MAX_NAMELEN {
        return Err(NameTooLong);
      }
      var d := OpenDirectory(parent);
      if d.Err? {
        return Err(d.error);
      }
      var m := MakeNode(slot, isDir);
      if m.Err? {
        ReleaseDir(parent);
        return Err(m.error);
      }
      r := LinkNode(m.value, parent, name);
    }

    method Link(ino: nat, parent: nat, name: Name) returns (r: DkResult<Attr>)
      modifies this
      ensures Out(View(), r) == LinkOp(old(View()), ino, parent, name)
      ensures old(Valid() && Legal(View(), CallLink(ino, parent, name))) ==>
        Valid() && LinkOpEffect(old(View()), Out(View(), r), ino, parent, name)
    {
      hide Good, Legal, LinkOpEffect, OpenDir, LinkAt, OpenDirEffect;
      LinkLegal(View(), ino, parent, name);
      if |name| > MAX_NAMELEN {
        return Err(NameTooLong);
      }
      var d := OpenDirectory(parent);
      if d.Err? {
        return Err(d.error);
      }
      r := LinkNode(ino, parent, name);
    }

    method Mkdir(slot: Option<nat>, parent: nat, name: Name) returns (r: DkResult<Attr>)
      modifies this
      ensures Out(View(), r) == MkdirOp(old(View()), slot, parent, name)
      ensures old(Valid() && Legal(View(), CallMkdir(slot, parent, name))) ==>
        Valid() && MkdirEffect(old(View()), Out(View(), r), slot, parent, name)
    {
      hide Good, Legal, MkdirEffect, Operations.Mkdir, OpenDir, LinkAt, OpenDirEffect, MakeDirEffect;
      MkdirLegal(View(), slot, parent, name);
      if |name| > MAX_NAMELEN {
        return Err(NameTooLong);
      }
      var m := MakeDir(slot, parent);
      if m.Err? {
        return Err(m.error);
      }
      var d := OpenDirectory(parent);
      if d.Err? {
        return Err(d.error);
      }
      r := LinkNode(m.value, parent, name);
    }

    method Unlink(parent: nat, name: Name) returns (r: DkResult<()>)
      modifies this
      ensures Out(View(), r) == UnlinkOp(old(View()), parent, name)
      ensures old(Valid() && Legal(View(), CallUnlink(parent, name))) ==>
        Valid() && UnlinkEffect(old(View()), Out(View(), r), {}, parent, name)
    {
      hide Good, Legal, UnlinkEffect, OpenDir, T.Unlink, OpenDirEffect, RemoveLinkEffect;
      UnlinkLegal(View(), parent, name);
      if |name| > MAX_NAMELEN {
        return Err(NameTooLong);
      }
      r := OpenDirectory(parent);
      if r.Ok? {
        r := RemoveLink(parent, name);
      }
    }

    method Rmdir(parent: nat, name: Name) returns (r: DkResult<()>)
      modifies this
      ensures Out(View(), r) == Operations.Rmdir(old(View()), parent, name)
      ensures old(Valid() && Legal(View(), CallRmdir(parent, name))) ==>
        Valid() && RmdirEffect(old(View()), Out(View(), r), parent, name)
    {
      hide Good, Legal, RmdirEffect, OpenDir, Lookup, UnlinkOp, OpenDirEffect, LookupEffect, UnlinkEffect;
      RmdirLegal(View(), parent, name);
      var l := LookUp(parent, name);
      if l.Err? {
        return Err(l.error);
      }
      var ino := l.value.ino;
      r := OpenDirectory(ino);
      if r.Err? {
        return;
      }
      if |dirs[ino].entries| == 2 {
        r := Unlink(ino, DOT);
        if r.Ok? {
          r := Unlink(ino, DOT_DOT);
        }
        if r.Ok? {
          r := Unlink(parent, name);
        }
      } else {
        r := Err(NotEmpty);
      }
      ReleaseDir(ino);
    }

    method Rename(from: nat, name: Name, to: nat, newName: Name) returns (r: DkResult<()>)
      modifies this
      ensures Out(View(), r) == Operations.Rename(old(View()), from, name, to, newName)
      ensures old(Valid() && Legal(View(), CallRename(from, name, to, newName))) ==>
        Valid() && RenameEffect(old(View()), Out(View(), r), from, name, to, newName)
    {
      hide Good, Legal, RenameEffect, OpenDir, Lookup, UnlinkOp, Operations.Rmdir, T.Link;
      hide OpenDirEffect, LookupEffect, UnlinkEffect, RmdirEffect, AddLinkEffect;
      RenameLegal(View(), from, name, to, newName);
      if |name| > MAX_NAMELEN || |newName| > MAX_NAMELEN {
        return Err(NameTooLong);
      }
      var l := LookUp(from, name);
      if l.Err? {
        return Err(l.error);
      }
      var target := LookUp(to, newName);
      if target.Ok? {
        if target.value.isDir {
          r := Rmdir(to, newName);
        } else {
          r := Unlink(to, newName);
        }
        if r.Err? {
          return;
        }
      }
      r := OpenDirectory(to);
      if r.Err? {
        return;
      }
      r := AddLink(l.value.ino, to, newName);
      if r.Ok? {
        r := Unlink(from, name);
      }
    }

    /** The handle given to a call is a clone; it is dropped at the end. */
    method ReleaseClone(ino: nat)
      modifies this`closeFiles
      ensures View() == Passed(old(View()), ino)
    {
      closeFiles := closeFiles + [ino];
    }

    /** `Handle::flush`. */
    method Flush(ino: nat)
      requires ino in files
      modifies this`inodes, this`files, this`closeFiles
      ensures View() == Syncing.Fsync(old(View()), ino, false)
      ensures old(Valid()) ==> Valid() && Kept(old(View()), View()) && InodeStored(View(), ino)
    {
      hide Good, Kept, InodeStored, FlushFile;
      FsyncLegal(View(), ino, false);
      FlushInode(ino);
      ReleaseClone(ino);
    }

    /** `Handle::fsync`. */
    method Fsync(ino: nat, datasync: bool)
      requires ino in files
      modifies this`inodes, this`files, this`closeFiles
      ensures View() == Syncing.Fsync(old(View()), ino, datasync)
      ensures old(Valid()) ==> Valid() && Kept(old(View()), View()) && (!datasync ==> InodeStored(View(), ino))
      ensures datasync ==> inodes == old(inodes) && files == old(files)
    {
      hide Good, Kept, InodeStored, FlushFile;
      FsyncLegal(View(), ino, datasync);
      if datasync {
        ReleaseClone(ino);
      } else {
        Flush(ino);
      }
    }

    /** `Handle::fsyncdir`. */
    method FsyncDir(d: nat, datasync: bool)
      requires d in dirs && d in files
      modifies this`inodes, this`stored, this`files, this`dirs, this`closeFiles, this`closeDirs
      ensures View() == Syncing.FsyncDir(old(View()), d, datasync)
      ensures old(Valid()) && old(dirRefs)[d] > 0 ==>
        && Valid() && Kept(old(View()), View()) && EntriesStored(View(), d) && dirs[d].entries == old(dirs)[d].entries
        && (!datasync ==> InodeStored(View(), d))
      ensures datasync ==> inodes == old(inodes)
    {
      hide Good, Kept, InodeStored, FlushFile, FlushDir;
      FsyncDirLegal(View(), d, datasync);
      FlushEntries(d);
      FlushedIn(old(View()), d);
      Fsync(d, datasync);
      closeDirs := closeDirs + [d];
    }
  }

  lemma FlushedIn(t: Tables, d: nat)
    requires d in t.dirs && d in t.files
    ensures FlushDir(t, d).files.Keys == t.files.Keys
  {
  }

  lemma FsyncLegal(t: Tables, i: nat, datasync: bool)
    ensures var u := Syncing.Fsync(t, i, datasync);
      Settled(t) && i in t.files ==> Settled(u) && Kept(t, u) && (!datasync ==> InodeStored(u, i))
  {
    hide Good, InodeStored, Reaped, Syncing.Fsync;
    if Settled(t) && i in t.files {
      FsyncKept(t, i, datasync);
    }
  }

  lemma FsyncDirLegal(t: Tables, d: nat, datasync: bool)
    ensures var u := Syncing.FsyncDir(t, d, datasync);
      Settled(t) && t.dirRefs[d] > 0 && d in t.dirs ==>
        && Settled(u) && Kept(t, u) && EntriesStored(u, d) && u.dirs[d].entries == t.dirs[d].entries
        && (!datasync ==> InodeStored(u, d))
  {
    hide Good, InodeStored, Reaped, Syncing.FsyncDir;
    if Settled(t) && t.dirRefs[d] > 0 {
      FsyncDirKept(t, d, datasync);
    }
  }

  lemma LookUpLegal(t: Tables, parent: nat, name: Name)
    ensures var c := CallLookup(parent, name);
      Settled(t) && Legal(t, c) ==> Settled(Step(t, c)) && LookupEffect(t, Lookup(t, parent, name), parent, name)
  {
    hide Good, LookupEffect;
    var c := CallLookup(parent, name);
    if Settled(t) && Legal(t, c) {
      StepSettled(t, c);
      LookupGood(t, parent, name);
    }
  }

  lemma MknodLegal(t: Tables, slot: Option<nat>, parent: nat, name: Name, isDir: bool)
    ensures var c := CallMknod(slot, parent, name, isDir);
      Settled(t) && Legal(t, c) ==>
        && Settled(Step(t, c))
        && MknodEffect(t, MknodOp(t, slot, parent, name, isDir), slot, parent, name, isDir)
  {
    hide Good, MknodEffect;
    var c := CallMknod(slot, parent, name, isDir);
    if Settled(t) && Legal(t, c) {
      StepSettled(t, c);
      MknodOpGood(t, slot, parent, name, isDir);
    }
  }

  lemma MkdirLegal(t: Tables, slot: Option<nat>, parent: nat, name: Name)
    ensures var c := CallMkdir(slot, parent, name);
      Settled(t) && Legal(t, c) ==>
        && Settled(Step(t, c))
        && MkdirEffect(t, MkdirOp(t, slot, parent, name), slot, parent, name)
  {
    hide Good, MkdirEffect;
    var c := CallMkdir(slot, parent, name);
    if Settled(t) && Legal(t, c) {
      StepSettled(t, c);
      MkdirOpGood(t, slot, parent, name);
    }
  }

  lemma UnlinkLegal(t: Tables, parent: nat, name: Name)
    ensures var c := CallUnlink(parent, name);
      Settled(t) && Legal(t, c) ==> Settled(Step(t, c)) && UnlinkEffect(t, UnlinkOp(t, parent, name), {}, parent, name)
  {
    hide Good, UnlinkEffect;
    var c := CallUnlink(parent, name);
    if Settled(t) && Legal(t, c) {
      StepSettled(t, c);
      UnlinkOpGood(t, {}, parent, name);
    }
  }

  lemma RmdirLegal(t: Tables, parent: nat, name: Name)
    ensures var c := CallRmdir(parent, name);
      Settled(t) && Legal(t, c) ==>
        && Settled(Step(t, c))
        && RmdirEffect(t, Operations.Rmdir(t, parent, name), parent, name)
  {
    hide Good, RmdirEffect;
    var c := CallRmdir(parent, name);
    if Settled(t) && Legal(t, c) {
      StepSettled(t, c);
      RmdirGood(t, parent, name);
    }
  }

  lemma RenameLegal(t: Tables, from: nat, name: Name, to: nat, newName: Name)
    ensures var c := CallRename(from, name, to, newName);
      Settled(t) && Legal(t, c) ==>
        && Settled(Step(t, c))
        && RenameEffect(t, Operations.Rename(t, from, name, to, newName), from, name, to, newName)
  {
    hide Good, RenameEffect;
    var c := CallRename(from, name, to, newName);
    if Settled(t) && Legal(t, c) {
      StepSettled(t, c);
      RenameGood(t, from, name, to, newName);
    }
  }

  lemma StatLegal(t: Tables, ino: nat)
    ensures var c := CallGetAttr(ino);
      Settled(t) && Legal(t, c) ==> Settled(Step(t, c)) && StatEffect(t, GetAttr(t, ino), {}, ino)
  {
    hide Good, StatEffect;
    var c := CallGetAttr(ino);
    if Settled(t) && Legal(t, c) {
      StepSettled(t, c);
      LiveLater(t, t, {}, ino);
      GetAttrGood(t, {}, ino);
    }
  }

  lemma OpenDirectoryLegal(t: Tables, ino: nat)
    ensures var c := CallOpenDir(ino);
      Settled(t) && Legal(t, c) ==> Settled(Step(t, c)) && OpenDirEffect(t, OpenDir(t, ino), {}, ino)
  {
    hide Good, OpenDirEffect;
    var c := CallOpenDir(ino);
    if Settled(t) && Legal(t, c) {
      StepSettled(t, c);
      OpenDirAny(t, {}, ino);
    }
  }

  lemma LinkLegal(t: Tables, ino: nat, parent: nat, name: Name)
    ensures var c := CallLink(ino, parent, name);
      Settled(t) && Legal(t, c) ==>
        && Settled(Step(t, c))
        && LinkOpEffect(t, LinkOp(t, ino, parent, name), ino, parent, name)
  {
    hide Good, LinkOpEffect;
    var c := CallLink(ino, parent, name);
    if Settled(t) && Legal(t, c) {
      StepSettled(t, c);
      LinkOpGood(t, ino, parent, name);
    }
  }

  lemma CloseFilesInListLegal(t: Tables)
    ensures Settled(t) ==> Settled(CloseFiles(t)) && FilesClosed(t, CloseFiles(t))
  {
    hide Good, FilesClosed;
    if Settled(t) {
      CloseFilesGood(t, 0, 0, {});
    }
  }

  lemma CloseDirsInListLegal(t: Tables)
    ensures Settled(t) ==> Settled(CloseDirs(t)) && DirsClosed(t, CloseDirs(t))
  {
    hide Good, DirsClosed;
    if Settled(t) {
      CloseDirsGood(t, {});
    }
  }

  lemma ApplyPendingLegal(t: Tables)
    ensures Settled(t) ==> Settled(ApplyReleases(t)) && ReleaseEffect(t, ApplyReleases(t))
  {
    hide Good, ReleaseEffect;
    if Settled(t) {
      ApplyReleasesGood(t);
      ReleaseSettled(t, ApplyReleases(t));
    }
  }

  lemma OpenFileLegal(t: Tables, ino: nat)
    ensures Settled(t) && Live(t, ino) ==> Settled(Open(t, ino).t) && OpenEffect(t, Open(t, ino), 0, 0, {}, ino)
  {
    hide Good, OpenEffect, Survives, Open;
    if Settled(t) && Live(t, ino) {
      LiveLater(t, t, {}, ino);
      OpenGood(t, 0, 0, {}, ino);
      OpenSettled(t, Open(t, ino), ino);
    }
  }

  lemma ReleaseFileLegal(t: Tables, ino: nat)
    ensures Settled(t) && t.fileRefs[ino] > 0 ==>
      Settled(DropFile(t, ino)) && DropFile(t, ino).fileRefs == t.fileRefs - multiset{ino}
  {
    hide Good;
    if Settled(t) && t.fileRefs[ino] > 0 {
      DropFileGood(t, {}, ino);
    }
  }

  lemma ReleaseDirLegal(t: Tables, ino: nat)
    ensures Settled(t) && t.dirRefs[ino] > 0 ==>
      Settled(DropDir(t, ino)) && DropDir(t, ino).dirRefs == t.dirRefs - multiset{ino}
  {
    hide Good;
    if Settled(t) && t.dirRefs[ino] > 0 {
      DropDirGood(t, {}, ino);
    }
  }

  lemma AddLinkLegal(t: Tables, ino: nat, parent: nat, name: Name)
    ensures Settled(t) && Survives(t, ino) && HasDots(AllLinks(t), parent) && t.dirRefs[parent] > 0 ==>
      parent in t.dirs ==>
      Settled(T.Link(t, ino, parent, name).t) && AddLinkEffect(t, T.Link(t, ino, parent, name), {}, ino, parent, name)
  {
    hide Good, AddLinkEffect, Survives, HasDots, AllLinks, T.Link;
    if Settled(t) && Survives(t, ino) && HasDots(AllLinks(t), parent) && t.dirRefs[parent] > 0 && parent in t.dirs {
      LinkGood(t, {}, ino, parent, name);
      AddSettled(t, T.Link(t, ino, parent, name), ino, parent, name);
    }
  }

  lemma RemoveLinkLegal(t: Tables, parent: nat, name: Name)
    ensures Settled(t) && t.dirRefs[parent] > 0 && !IsDot(name) && parent in t.dirs ==>
      Settled(T.Unlink(t, parent, name).t) && RemoveLinkEffect(t, T.Unlink(t, parent, name), {}, parent, name)
  {
    hide Good, RemoveLinkEffect, T.Unlink;
    if Settled(t) && t.dirRefs[parent] > 0 && !IsDot(name) && parent in t.dirs {
      UnlinkGood(t, {}, parent, name);
      RemoveSettled(t, T.Unlink(t, parent, name), parent, name);
    }
  }

  lemma MakeNodeLegal(t: Tables, slot: Option<nat>, isDir: bool)
    ensures Settled(t) && slot.Some? && slot.value !in t.inodes ==>
      Settled(T.Mknod(t, slot, isDir).t) && MakeNodeEffect(t, T.Mknod(t, slot, isDir).t, {}, slot.value, isDir)
  {
    hide Good, MakeNodeEffect, T.Mknod;
    if Settled(t) && slot.Some? && slot.value !in t.inodes {
      MknodGood(t, {}, slot.value, isDir);
      MakeSettled(t, T.Mknod(t, slot, isDir).t, slot.value, isDir);
    }
  }

  lemma MakeDirLegal(t: Tables, slot: Option<nat>, parent: nat)
    ensures Settled(t) && slot.Some? && slot.value !in t.inodes ==>
      (parent == slot.value || HasDots(AllLinks(t), parent)) ==>
      && Settled(Operations.Mkdir(t, slot, parent).t)
      && MakeDirEffect(t, Operations.Mkdir(t, slot, parent), slot.value, parent)
  {
    hide Good, MakeDirEffect, HasDots, AllLinks, Operations.Mkdir;
    if Settled(t) && slot.Some? && slot.value !in t.inodes && (parent == slot.value || HasDots(AllLinks(t), parent)) {
      MkdirGood(t, slot.value, parent);
      MakeDirSettled(t, Operations.Mkdir(t, slot, parent), slot.value, parent);
    }
  }

  lemma ReleaseSettled(t: Tables, u: Tables)
    requires ReleaseEffect(t, u)
    ensures Settled(u)
  {
  }

  lemma OpenSettled(t: Tables, o: Out<()>, ino: nat)
    requires OpenEffect(t, o, 0, 0, {}, ino)
    ensures Settled(o.t)
  {
  }

  lemma AddSettled(t: Tables, o: Out<()>, ino: nat, parent: nat, name: Name)
    requires AddLinkEffect(t, o, {}, ino, parent, name)
    ensures Settled(o.t)
  {
  }

  lemma RemoveSettled(t: Tables, o: Out<()>, parent: nat, name: Name)
    requires RemoveLinkEffect(t, o, {}, parent, name)
    ensures Settled(o.t)
  {
  }

  lemma MakeSettled(t: Tables, u: Tables, i: nat, isDir: bool)
    requires MakeNodeEffect(t, u, {}, i, isDir)
    ensures Settled(u)
  {
  }

  lemma MakeDirSettled(t: Tables, o: Out<nat>, i: nat, parent: nat)
    requires MakeDirEffect(t, o, i, parent)
    ensures Settled(o.t)
  {
  }
}
