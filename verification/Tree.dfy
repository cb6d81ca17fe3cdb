/**
 The directory tree as the callers of a mounted file system see it: the entries, the kind of every inode and the
 handles. What each call does to it is written out here, without the tables, the pending lists or the disk.
 */
module Trees {
  import opened Results
  import opened Links

  /** A call; slots are what the inode allocator hands out. Opening takes a handle and closing gives one back. */
  datatype Call =
    | CallLookup(parent: nat, name: Name)
    | CallGetAttr(ino: nat)
    | CallMknod(slot: Option<nat>, parent: nat, name: Name, isDir: bool)
    | CallMkdir(slot: Option<nat>, parent: nat, name: Name)
    | CallLink(ino: nat, parent: nat, name: Name)
    | CallUnlink(parent: nat, name: Name)
    | CallRmdir(parent: nat, name: Name)
    | CallRename(parent: nat, name: Name, to: nat, newName: Name)
    | CallOpen(ino: nat)
    | CallClose(ino: nat)
    | CallOpenDir(ino: nat)
    | CallCloseDir(ino: nat)
    | CallRead(ino: nat)
    | CallWrite(ino: nat)
    | CallReadDir(ino: nat)
    | CallFlush(ino: nat)
    | CallFsync(ino: nat, datasync: bool)
    | CallFsyncDir(ino: nat, datasync: bool)
    | CallSetAttr(ino: nat, held: bool)
    | CallClearBits(ino: nat)
    | CallXattr(ino: nat, name: Name, change: bool)
    | CallApplyReleases

  /** `kinds` says of every inode whether it is a directory; `files` and `dirs` are the handles. */
  datatype Tree = Tree(links: map<Key, nat>, kinds: map<nat, bool>, files: multiset<nat>, dirs: multiset<nat>)

  predicate DirAt(tree: Tree, i: nat) {
    i in tree.kinds && tree.kinds[i]
  }

  /** The entry `k` names a directory with more than its dot entries. */
  ghost predicate InTheWay(tree: Tree, k: Key) {
    k in tree.links && DirAt(tree, tree.links[k]) && !Removable(tree.links, tree.links[k])
  }

  /** The tree after a call; what is not listed, and every call that fails, leaves it as it is. */
  ghost function After(tree: Tree, c: Call): Tree {
    var links := tree.links;
    match c
    case CallMknod(slot, p, n, isDir) =>
      if |n| > 256 || slot.None? then tree
      else
        tree.(kinds := tree.kinds[slot.value := isDir],
              links := if (p, n) in links then links else links[(p, n) := slot.value])
    case CallMkdir(slot, p, n) =>
      if |n| > 256 || slot.None? then tree
      else
        var i := slot.value;
        var made := links[(i, DOT) := i][(i, DOT_DOT) := p];
        tree.(kinds := tree.kinds[i := true], links := if (p, n) in links then made else made[(p, n) := i])
    case CallLink(i, p, n) => if |n| > 256 || (p, n) in links then tree else tree.(links := links[(p, n) := i])
    case CallUnlink(p, n) => if |n| > 256 || !DirAt(tree, p) then tree else tree.(links := links - {(p, n)})
    case CallRmdir(p, n) =>
      if |n| > 256 || (p, n) !in links || !DirAt(tree, links[(p, n)]) || InTheWay(tree, (p, n)) then tree
      else
        var d := links[(p, n)];
        tree.(links := links - {(d, DOT), (d, DOT_DOT), (p, n)})
    case CallRename(p, n, q, m) =>
      if |n| > 256 || |m| > 256 || (p, n) !in links || InTheWay(tree, (q, m)) then tree
      else
        var cleared :=
          if (q, m) in links && DirAt(tree, links[(q, m)])
          then links - {(links[(q, m)], DOT), (links[(q, m)], DOT_DOT)}
          else links;
        tree.(links := cleared[(q, m) := links[(p, n)]] - {(p, n)})
    case CallOpen(i) => tree.(files := tree.files + multiset{i})
    case CallClose(i) => tree.(files := tree.files - multiset{i})
    case CallOpenDir(d) => if DirAt(tree, d) then tree.(dirs := tree.dirs + multiset{d}) else tree
    case CallCloseDir(d) => tree.(dirs := tree.dirs - multiset{d})
    case _ => tree
  }

  /** An inode number that callers may use: an entry names it or there is a handle on it. */
  predicate Alive(tree: Tree, i: nat) {
    Count(tree.links, i) > 0 || tree.files[i] > 0 || tree.dirs[i] > 0
  }

  /**
   What the kernel guarantees: inode numbers have a link or a handle, directories are opened as such and have not been
   removed when they are changed, dot names are not given, a rename is not onto itself, and only open handles are
   used and closed.
   */
  predicate Allowed(tree: Tree, c: Call) {
    match c
    case CallLookup(p, _) => Alive(tree, p)
    case CallGetAttr(i) => Alive(tree, i)
    case CallMknod(_, p, _, _) => HasDots(tree.links, p)
    case CallMkdir(_, p, n) => HasDots(tree.links, p) && !IsDot(n)
    case CallLink(i, p, _) => HasDots(tree.links, p) && Alive(tree, i)
    case CallUnlink(p, n) => Alive(tree, p) && !IsDot(n)
    case CallRmdir(p, n) => HasDots(tree.links, p) && !IsDot(n)
    case CallRename(p, n, q, m) =>
      HasDots(tree.links, p) && HasDots(tree.links, q) && !IsDot(n) && !IsDot(m) && (p, n) != (q, m)
    case CallOpen(i) => Alive(tree, i) && !DirAt(tree, i)
    case CallOpenDir(d) => Alive(tree, d)
    case CallReadDir(d) => tree.dirs[d] > 0
    case CallFsyncDir(d, _) => tree.dirs[d] > 0
    case CallCloseDir(d) => tree.dirs[d] > 0
    case CallSetAttr(i, held) => if held then tree.files[i] > 0 else Alive(tree, i)
    case CallXattr(i, _, _) => Alive(tree, i)
    case CallApplyReleases => true
    case _ => tree.files[c.ino] > 0
  }

  ghost function AfterAll(tree: Tree, calls: seq<Call>): Tree
    decreases |calls|
  {
    if calls == [] then tree else AfterAll(After(tree, calls[0]), calls[1..])
  }

  /** A new file system: the root, number 114514, with its entries `.` and `..`. */
  function NewTree(): Tree {
    Tree(map[(114_514, [46]) := 114_514, (114_514, [46, 46]) := 114_514], map[114_514 := true], multiset{}, multiset{})
  }
}
