/** Link counts as values: how many directory entries name an inode. */
module Links {
  import opened Codec

  type Name = seq<Byte>
  type Key = (nat, Name)

  const DOT: Name := [46]
  const DOT_DOT: Name := [46, 46]

  predicate IsDot(name: Name) {
    name == DOT || name == DOT_DOT
  }

  /** A directory names itself, and has an entry for its parent. */
  predicate HasDots(links: map<Key, nat>, d: nat) {
    (d, DOT) in links && (d, DOT_DOT) in links && links[(d, DOT)] == d
  }

  /** Nothing in directory `d` but its dot entries. */
  ghost predicate Removable(links: map<Key, nat>, d: nat) {
    HasDots(links, d) && forall k :: k in links && k.0 == d ==> IsDot(k.1)
  }

  function Naming(links: map<Key, nat>, i: nat): set<Key> {
    set k | k in links && links[k] == i
  }

  /** The number of entries that name inode `i`, over all directories. */
  function Count(links: map<Key, nat>, i: nat): nat {
    |Naming(links, i)|
  }

  lemma CountAdd(links: map<Key, nat>, k: Key, i: nat, j: nat)
    requires k !in links
    ensures Count(links[k := i], j) == Count(links, j) + (if j == i then 1 else 0)
  {
    if j == i {
      assert Naming(links[k := i], j) == Naming(links, j) + {k};
    } else {
      assert Naming(links[k := i], j) == Naming(links, j);
    }
  }

  lemma CountRemove(links: map<Key, nat>, k: Key, j: nat)
    requires k in links
    ensures Count(links - {k}, j) == Count(links, j) - (if j == links[k] then 1 else 0)
  {
    if j == links[k] {
      assert Naming(links - {k}, j) == Naming(links, j) - {k};
    } else {
      assert Naming(links - {k}, j) == Naming(links, j);
    }
  }

  lemma CountPositive(links: map<Key, nat>, k: Key)
    requires k in links
    ensures Count(links, links[k]) > 0
  {
    assert k in Naming(links, links[k]);
  }
}
