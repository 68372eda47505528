/**
 * The file system the loader reads: a snapshot mapping each cleaned
 * absolute path to a directory, a file or a symbolic link, the resolution
 * of links, and the file system object whose methods change the snapshot
 * as the in-memory file system of filesys.MakeFsInMemory does. Its
 * WriteFile creates missing parent directories; a write on disk does not,
 * so the on-disk calls of the restriction tests agree with it only where
 * every parent already exists.
 */
module FileSys {
  import opened Wrappers
  import opened Paths

  datatype Node = Dir | File(content: string) | Symlink(target: string)

  type Nodes = map<Path, Node>

  /** filepath.EvalSymlinks gives up after following this many links. */
  const MaxLinks: nat := 255

  /** The root is a directory and every other node sits in a directory. */
  predicate WellFormed(fs: Nodes) {
    && [] in fs && fs[[]] == Dir
    && forall p | p in fs && p != [] :: Parent(p) in fs && fs[Parent(p)] == Dir
  }

  /** A file system holding nothing but its root directory. */
  function EmptyFs(): (fs: Nodes)
    ensures WellFormed(fs)
    ensures forall p | p in fs :: p == []
  {
    map[[] := Dir]
  }

  /** The directories strictly above p. */
  function Ancestors(p: Path): (s: set<Path>)
    ensures forall q :: q in s <==> q <= p && q != p
  {
    assert forall q :: q <= p && q != p ==> q == p[..|q|];
    set k | 0 <= k < |p| :: p[..k]
  }

  // ---------------------------------------------------------------------
  // Symbolic links

  /**
   * The node p finally names after following at most links symbolic links;
   * a link's target is read relative to the directory holding the link.
   */
  function ResolveWithin(fs: Nodes, p: Path, links: nat): (r: Option<Path>)
    ensures r.Some? ==> r.value in fs && !fs[r.value].Symlink?
    decreases links
  {
    if p !in fs then None
    else match fs[p]
      case Symlink(target) =>
        if links == 0 then None else ResolveWithin(fs, Join(Parent(p), target), links - 1)
      case _ => Some(p)
  }

  /** The real path p names (filepath.EvalSymlinks), if it exists. */
  function Resolve(fs: Nodes, p: Path): (r: Option<Path>)
    ensures r.Some? ==> r.value in fs && !fs[r.value].Symlink?
  {
    ResolveWithin(fs, p, MaxLinks)
  }

  /** A directory or a file resolves to itself. */
  lemma ResolvePlain(fs: Nodes, p: Path)
    requires p in fs && !fs[p].Symlink?
    ensures Resolve(fs, p) == Some(p)
  {
  }

  /** A link to a directory or a file resolves to its target. */
  lemma ResolveLink(fs: Nodes, link: Path, q: Path)
    requires link in fs && fs[link].Symlink?
    requires Join(Parent(link), fs[link].target) == q
    requires q in fs && !fs[q].Symlink?
    ensures Resolve(fs, link) == Some(q)
  {
  }

  // ---------------------------------------------------------------------
  // Changes to the file system

  /** fs with every directory of ds that it lacks added. */
  function AddDirs(fs: Nodes, ds: set<Path>): (r: Nodes)
    ensures r.Keys == fs.Keys + ds
    ensures forall q | q in fs :: r[q] == fs[q]
    ensures forall q | q in ds && q !in fs :: r[q] == Dir
  {
    map q | q in fs.Keys + ds :: if q in fs then fs[q] else Dir
  }

  /** WriteFile succeeds when nothing above p is anything but a directory and p is not a directory. */
  predicate CanWriteFile(fs: Nodes, p: Path) {
    && p != []
    && (forall q | q in Ancestors(p) :: q !in fs || fs[q] == Dir)
    && (p !in fs || fs[p].File?)
  }

  /** WriteFile: p holds content, and its missing directories are created. */
  function WithFile(fs: Nodes, p: Path, content: string): Nodes {
    if CanWriteFile(fs, p) then AddDirs(fs, Ancestors(p))[p := File(content)] else fs
  }

  /** MkdirAll succeeds when every directory on the way is a directory or missing. */
  predicate CanMkdirAll(fs: Nodes, p: Path) {
    && (forall q | q in Ancestors(p) :: q !in fs || fs[q] == Dir)
    && (p !in fs || fs[p] == Dir)
  }

  /** MkdirAll: p and the directories above it exist. */
  function WithDirs(fs: Nodes, p: Path): Nodes {
    if CanMkdirAll(fs, p) then AddDirs(fs, Ancestors(p) + {p}) else fs
  }

  /** Mkdir and Symlink create one new node in an existing directory. */
  predicate CanAdd(fs: Nodes, p: Path) {
    p != [] && p !in fs && Parent(p) in fs && fs[Parent(p)] == Dir
  }

  /** Mkdir: p is a new, empty directory. */
  function WithDir(fs: Nodes, p: Path): Nodes {
    if CanAdd(fs, p) then fs[p := Dir] else fs
  }

  /** Symlink: link is a new link to target. */
  function WithSymlink(fs: Nodes, target: string, link: Path): Nodes {
    if CanAdd(fs, link) then fs[link := Symlink(target)] else fs
  }

  lemma AncestorParent(p: Path, q: Path)
    requires q in Ancestors(p) + {p} && q != []
    ensures Parent(q) in Ancestors(p)
  {
  }

  lemma {:induction false} WithFileWellFormed(fs: Nodes, p: Path, content: string)
    requires WellFormed(fs)
    ensures WellFormed(WithFile(fs, p, content))
  {
    if CanWriteFile(fs, p) {
      var a := AddDirs(fs, Ancestors(p));
      var r := a[p := File(content)];
      forall q | q in r && q != []
        ensures Parent(q) in r && r[Parent(q)] == Dir
      {
        if q == p || q in Ancestors(p) {
          AncestorParent(p, q);
        } else {
          assert q in fs;
          assert Parent(q) != p;
        }
      }
    }
  }

  lemma {:induction false} WithDirsWellFormed(fs: Nodes, p: Path)
    requires WellFormed(fs)
    ensures WellFormed(WithDirs(fs, p))
  {
    if CanMkdirAll(fs, p) {
      var r := AddDirs(fs, Ancestors(p) + {p});
      forall q | q in r && q != []
        ensures Parent(q) in r && r[Parent(q)] == Dir
      {
        if q in Ancestors(p) + {p} {
          AncestorParent(p, q);
        }
      }
    }
  }

  lemma WithDirWellFormed(fs: Nodes, p: Path)
    requires WellFormed(fs)
    ensures WellFormed(WithDir(fs, p))
  {
  }

  lemma WithSymlinkWellFormed(fs: Nodes, target: string, link: Path)
    requires WellFormed(fs)
    ensures WellFormed(WithSymlink(fs, target, link))
  {
  }

  /**
   * Writing a new file where no file or link lies on the way: it succeeds,
   * the file holds the content, every old node is kept, and every new node
   * other than the file is a directory on the way to it.
   */
  lemma WithFileKeeps(fs: Nodes, p: Path, content: string)
    requires WellFormed(fs) && p != [] && p !in fs
    requires forall q | q in fs && fs[q] != Dir :: !(q <= p)
    ensures CanWriteFile(fs, p)
    ensures var r := WithFile(fs, p, content);
      && WellFormed(r) && p in r && r[p] == File(content)
      && (forall q | q in fs :: q in r && r[q] == fs[q])
      && (forall q | q in r :: q in fs || q <= p)
      && (forall q | q in r && q != p && r[q] != Dir :: q in fs)
  {
    WithFileWellFormed(fs, p, content);
  }

  /**
   * MkdirAll where no file or link lies on the way: it succeeds, p is a
   * directory, every old node is kept, and every new node is a directory
   * on the way to p.
   */
  lemma WithDirsKeeps(fs: Nodes, p: Path)
    requires WellFormed(fs)
    requires forall q | q in fs && fs[q] != Dir :: !(q <= p)
    ensures CanMkdirAll(fs, p)
    ensures var r := WithDirs(fs, p);
      && WellFormed(r) && p in r && r[p] == Dir
      && (forall q | q in fs :: q in r && r[q] == fs[q])
      && (forall q | q in r :: q in fs || q <= p)
      && (forall q | q in r && r[q] != Dir :: q in fs)
  {
    WithDirsWellFormed(fs, p);
  }

  /** A new node in an existing directory: Mkdir, WriteFile and Symlink each add just that node. */
  lemma AddNode(fs: Nodes, p: Path, n: Node)
    requires WellFormed(fs) && CanAdd(fs, p)
    ensures WellFormed(fs[p := n])
    ensures n == Dir ==> WithDir(fs, p) == fs[p := n]
    ensures n.File? ==> WithFile(fs, p, n.content) == fs[p := n]
    ensures n.Symlink? ==> WithSymlink(fs, n.target, p) == fs[p := n]
  {
    forall a | a in Ancestors(p)
      ensures a in fs && fs[a] == Dir
    {
      if a != Parent(p) {
        AncestorsAreDirs(fs, Parent(p), a);
      }
    }
    assert CanWriteFile(fs, p);
    assert AddDirs(fs, Ancestors(p)) == fs;
  }

  /** Every directory above a node of a well-formed file system exists and is a directory. */
  lemma {:induction false} AncestorsAreDirs(fs: Nodes, p: Path, q: Path)
    requires WellFormed(fs) && p in fs
    requires q <= p && q != p
    ensures q in fs && fs[q] == Dir
    decreases |p|
  {
    if Parent(p) != q {
      assert q <= Parent(p);
      AncestorsAreDirs(fs, Parent(p), q);
    }
  }

  // ---------------------------------------------------------------------
  // The file system object

  /** A file system whose methods change the nodes it holds. */
  class FileSystem {
    var nodes: Nodes

    ghost predicate Valid()
      reads this
    {
      WellFormed(nodes)
    }

    /** MakeFsInMemory: only the root directory. */
    constructor ()
      ensures Valid() && nodes == EmptyFs()
    {
      nodes := EmptyFs();
    }

    /** WriteFile(path, content), relative paths read from "/". */
    method WriteFile(path: string, content: string) returns (ok: bool)
      requires Valid()
      modifies this
      ensures Valid()
      ensures ok == CanWriteFile(old(nodes), Join([], path))
      ensures nodes == WithFile(old(nodes), Join([], path), content)
    {
      var p := Join([], path);
      ok := CanWriteFile(nodes, p);
      WithFileWellFormed(nodes, p, content);
      nodes := WithFile(nodes, p, content);
    }

    /** MkdirAll(path). */
    method MkdirAll(path: string) returns (ok: bool)
      requires Valid()
      modifies this
      ensures Valid()
      ensures ok == CanMkdirAll(old(nodes), Join([], path))
      ensures nodes == WithDirs(old(nodes), Join([], path))
    {
      var p := Join([], path);
      ok := CanMkdirAll(nodes, p);
      WithDirsWellFormed(nodes, p);
      nodes := WithDirs(nodes, p);
    }

    /** Mkdir(path). */
    method Mkdir(path: string) returns (ok: bool)
      requires Valid()
      modifies this
      ensures Valid()
      ensures ok == CanAdd(old(nodes), Join([], path))
      ensures nodes == WithDir(old(nodes), Join([], path))
    {
      var p := Join([], path);
      ok := CanAdd(nodes, p);
      WithDirWellFormed(nodes, p);
      nodes := WithDir(nodes, p);
    }

    /** os.Symlink(target, link). */
    method Symlink(target: string, link: string) returns (ok: bool)
      requires Valid()
      modifies this
      ensures Valid()
      ensures ok == CanAdd(old(nodes), Join([], link))
      ensures nodes == WithSymlink(old(nodes), target, Join([], link))
    {
      var p := Join([], link);
      ok := CanAdd(nodes, p);
      WithSymlinkWellFormed(nodes, target, p);
      nodes := WithSymlink(nodes, target, p);
    }
  }
}
