/** Inode numbers for remote paths, and the cache file each path maps to. */
module Inodes {
  import opened Options

  /** A path is its list of components; component names are single and non-empty. */
  type PathName = seq<string>

  /** Mutual inverses, every number below `next`, and inode 1 is the mount root. */
  ghost predicate Agree(byIno: map<nat, PathName>, byPath: map<PathName, nat>, next: nat, root: PathName) {
    && (forall ino | ino in byIno :: ino < next && byIno[ino] in byPath && byPath[byIno[ino]] == ino)
    && (forall p | p in byPath :: byPath[p] in byIno && byIno[byPath[p]] == p)
    && 1 in byIno && byIno[1] == root
  }

  ghost predicate Under(byPath: map<PathName, nat>, root: PathName) {
    forall p | p in byPath :: root <= p
  }

  class InodeMap {
    const root: PathName
    var next: nat
    var byIno: map<nat, PathName>
    var byPath: map<PathName, nat>

    ghost predicate Valid()
      reads this
    {
      Agree(byIno, byPath, next, root) && Under(byPath, root)
    }

    constructor (root: PathName)
      ensures Valid() && this.root == root && byIno == map[1 := root] && byPath == map[root := 1] && next == 2
    {
      this.root := root;
      next, byIno, byPath := 2, map[1 := root], map[root := 1];
    }

    /** The number of a path under the root, assigned on first use and never changed. */
    method InoFor(path: PathName) returns (ino: nat)
      requires Valid() && root <= path
      modifies this
      ensures Valid() && path in byPath && byPath[path] == ino && byIno[ino] == path
      ensures path in old(byPath) ==>
        ino == old(byPath)[path] && byPath == old(byPath) && byIno == old(byIno) && next == old(next)
      ensures path !in old(byPath) ==>
        && ino == old(next) && next == old(next) + 1
        && byPath == old(byPath)[path := ino] && byIno == old(byIno)[ino := path]
    {
      if path in byPath {
        return byPath[path];
      }
      ino := next;
      next := next + 1;
      byPath := byPath[path := ino];
      byIno := byIno[ino := path];
    }

    /** `parent/name`, registered; none when the parent is unknown. */
    method ChildPath(parent: nat, name: string) returns (path: Option<PathName>)
      requires Valid()
      modifies this
      ensures Valid()
      ensures path == if parent in old(byIno) then Some(old(byIno)[parent] + [name]) else None
      ensures path.Some? ==> path.value in byPath && root < path.value
      ensures path.Some? ==> forall cacheDir: PathName ::
                CachePath(cacheDir, root, path.value) == CachePath(cacheDir, root, old(byIno)[parent]) + [name]
      ensures path.None? ==> byIno == old(byIno) && byPath == old(byPath) && next == old(next)
      ensures forall ino | ino in old(byIno) :: ino in byIno && byIno[ino] == old(byIno)[ino]
    {
      if parent !in byIno {
        return None;
      }
      var p := byIno[parent] + [name];
      assert root <= byIno[parent] <= p;
      forall cacheDir: PathName
        ensures CachePath(cacheDir, root, p) == CachePath(cacheDir, root, byIno[parent]) + [name]
      {
        CacheChild(cacheDir, root, byIno[parent], name);
      }
      var _ := InoFor(p);
      path := Some(p);
    }

    /**
      What a rename does here: both names are looked up, and nothing moves. The
      kernel goes on calling the moved file by the number of its old name, which
      still stands for the old name, until it looks the new name up.
     */
    method Rename(parent: nat, name: string, newParent: nat, newName: string)
      returns (from: Option<PathName>, to: Option<PathName>)
      requires Valid()
      modifies this
      ensures Valid()
      ensures from == if parent in old(byIno) then Some(old(byIno)[parent] + [name]) else None
      ensures to == if newParent in byIno then Some(byIno[newParent] + [newName]) else None
      ensures from.Some? && to.Some? ==>
        && from.value in byPath && to.value in byPath
        && byIno[byPath[from.value]] == from.value && byIno[byPath[to.value]] == to.value
        && (byIno[byPath[from.value]] == to.value <==> from.value == to.value)
      ensures forall ino | ino in old(byIno) :: ino in byIno && byIno[ino] == old(byIno)[ino]
    {
      from := ChildPath(parent, name);
      to := ChildPath(newParent, newName);
    }
  }

  /** Where the mount keeps the cached bytes of a remote path. */
  function CachePath(cacheDir: PathName, root: PathName, path: PathName): PathName {
    if root <= path then cacheDir + path[|root|..]
    else if path == [] then cacheDir
    else cacheDir + [path[|path| - 1]]
  }

  /** The file the flusher opens: outside the root, joining an absolute path replaces the cache directory. */
  function FlusherPath(cacheDir: PathName, root: PathName, path: PathName): PathName {
    if root <= path then cacheDir + path[|root|..] else path
  }

  lemma CacheChild(cacheDir: PathName, root: PathName, p: PathName, name: string)
    requires root <= p
    ensures CachePath(cacheDir, root, p + [name]) == CachePath(cacheDir, root, p) + [name]
  {
    assert root <= p + [name] && (p + [name])[|root|..] == p[|root|..] + [name];
  }

  /**
    The cache directory mirrors the mount: the root is the directory itself, every
    other registered path lies inside it at the same depth, and a child's file is
    its parent's plus the name.
   */
  lemma CacheMirrors(byIno: map<nat, PathName>, byPath: map<PathName, nat>, next: nat, root: PathName,
                     cacheDir: PathName, i: nat, name: string)
    requires Agree(byIno, byPath, next, root) && Under(byPath, root) && i in byIno
    ensures var p := byIno[i];
      && cacheDir <= CachePath(cacheDir, root, p)
      && (CachePath(cacheDir, root, p) == cacheDir <==> i == 1)
      && |CachePath(cacheDir, root, p)| - |cacheDir| == |p| - |root|
      && CachePath(cacheDir, root, p + [name]) == CachePath(cacheDir, root, p) + [name]
      && FlusherPath(cacheDir, root, p + [name]) == CachePath(cacheDir, root, p) + [name]
  {
    var p := byIno[i];
    assert byPath[p] == i && byPath[root] == 1;
    CacheChild(cacheDir, root, p, name);
    assert root <= p + [name];
    assert p == root + p[|root|..];
    assert p[|root|..] == [] <==> p == root;
    assert |CachePath(cacheDir, root, p)| == |cacheDir| + |p[|root|..]|;
    assert CachePath(cacheDir, root, p) == cacheDir <==> p[|root|..] == [];
  }

  /**
    Two registered paths never share a cache file, and the flusher reads the file
    the write filled.
   */
  lemma CacheFilesDistinct(byIno: map<nat, PathName>, byPath: map<PathName, nat>, next: nat, root: PathName,
                           cacheDir: PathName, i: nat, j: nat)
    requires Agree(byIno, byPath, next, root) && Under(byPath, root) && i in byIno && j in byIno
    ensures CachePath(cacheDir, root, byIno[i]) == CachePath(cacheDir, root, byIno[j]) <==> i == j
    ensures FlusherPath(cacheDir, root, byIno[i]) == CachePath(cacheDir, root, byIno[i])
  {
    var p, q := byIno[i], byIno[j];
    assert byPath[p] == i && byPath[q] == j;
    if CachePath(cacheDir, root, p) == CachePath(cacheDir, root, q) {
      var a, b := p[|root|..], q[|root|..];
      assert (cacheDir + a)[|cacheDir|..] == a && (cacheDir + b)[|cacheDir|..] == b;
      assert p == root + a && q == root + b;
    }
  }

  /**
    Outside the root, paths share a cache file exactly if they have the same last
    name, also with a path right under the root, and the flusher finds it only if
    the remote path is that cache file's own.
   */
  lemma OutsideRootIff(cacheDir: PathName, root: PathName, p: PathName, q: PathName)
    requires !(root <= p) && !(root <= q) && p != [] && q != []
    ensures CachePath(cacheDir, root, p) == CachePath(cacheDir, root, q) <==> p[|p| - 1] == q[|q| - 1]
    ensures CachePath(cacheDir, root, p) == CachePath(cacheDir, root, root + [p[|p| - 1]])
    ensures FlusherPath(cacheDir, root, p) == CachePath(cacheDir, root, p) <==> p == cacheDir + [p[|p| - 1]]
  {
    var a, b := CachePath(cacheDir, root, p), CachePath(cacheDir, root, q);
    assert a[|cacheDir|] == p[|p| - 1] && b[|cacheDir|] == q[|q| - 1];
    assert (root + [p[|p| - 1]])[|root|..] == [p[|p| - 1]];
  }

  /** Outside the root both halves fail: files collide, and the flusher looks elsewhere. */
  lemma OutsideRootCollides()
    ensures var cacheDir, root := ["cache"], ["srv", "data"];
      && CachePath(cacheDir, root, ["a", "f"]) == CachePath(cacheDir, root, ["b", "f"])
      && FlusherPath(cacheDir, root, ["a", "f"]) != CachePath(cacheDir, root, ["a", "f"])
  {
    assert ["srv", "data"][0] == "srv" && ["a", "f"][0] == "a" && ["b", "f"][0] == "b";
    assert "srv" != "a" && "srv" != "b" by {
      assert |"srv"| == 3 && |"a"| == 1 && |"b"| == 1;
    }
    assert FlusherPath(["cache"], ["srv", "data"], ["a", "f"])[0] == "a";
    assert CachePath(["cache"], ["srv", "data"], ["a", "f"])[0] == "cache";
    assert |"cache"| == 5;
  }
}
