/**
 * The loader tests as lemmas about the model: each test's steps, on the
 * file systems the tests build, give the roots, contents and errors the
 * tests expect. References are written as the tests write them, from
 * the path components below.
 */
module Scenarios {
  import opened Wrappers
  import opened Paths
  import opened FileSys
  import opened Git
  import opened Loader
  import opened LoaderLemmas
  import opened Fixtures

  /**
   * A reference that does not begin with the host's first character does
   * not start with the host, so it is not a remote one.
   */
  lemma NotRemote(s: string)
    requires s != [] && s[0] != GitHubHost[0]
    ensures !StartsWith(s, GitHubHost)
    ensures ParseRepoSpec(s).None?
  {
    if |s| >= |GitHubHost| {
      assert s[..|GitHubHost|][0] == s[0];
    }
  }

  /** "/a/b" and "/a/b/c" written out with separators. */
  lemma Printed2(a: Segment, b: Segment)
    ensures Render([a, b]) == "/" + a + "/" + b
  {
    SlashedCons(b, []);
    SlashedCons(a, [b]);
    assert [a] + ([b] + []) == [a, b];
  }

  lemma Printed3(a: Segment, b: Segment, c: Segment)
    ensures Render([a, b, c]) == "/" + a + "/" + b + "/" + c
  {
    Printed2(b, c);
    assert Slashed([a, b, c]) == [Separator] + a + Slashed([b, c]) by {
      SlashedCons(a, [b, c]);
      assert [a] + [b, c] == [a, b, c];
    }
    var bc := "/" + b + "/" + c;
    assert "/" + a + bc == "/" + a + "/" + b + "/" + c;
  }

  // ---------------------------------------------------------------------
  // TestLoaderLoad, TestLoaderNewSubDir, TestLoaderBadRelative, TestLoaderMisc

  /** The path components of the test files have no colon, so no reference made of them is a URL. */
  lemma NoColons()
    ensures ':' !in Foo && ':' !in Project && ':' !in Subdir1 && ':' !in Subdir2
    ensures ':' !in FileA && ':' !in FileB && ':' !in FileC && ':' !in FileD
  {
  }

  /** makeLoader(): the loader at "/" over MakeFakeFs(testCases). */
  const AtTop: FileLoader := FileLoader([], [], RestrictionRootOnly, None, None, ClonerUsingGitExec)

  const AtProject: FileLoader := FileLoader(AtTop.Visits(), [Foo, Project], RestrictionRootOnly, None, None, ClonerUsingGitExec)

  lemma MakeLoader()
    ensures NewFileLoaderAtRoot(FakeNodes(TestCases)) == Success(AtTop)
    ensures AtTop.Root() == "/"
  {
    TestFsShapeHolds();
    RootLoader(FakeNodes(TestCases));
  }

  /**
   * A local path that resolves to a file is read, under RestrictionRootOnly
   * when the file's directory is in or below the root.
   */
  lemma LoadsFile(l: FileLoader, fs: Nodes, path: string, q: Path)
    requires ':' !in path
    requires Resolve(fs, Join(l.root, path)) == Some(q) && fs[q].File?
    requires l.loadRestrictor == RestrictionRootOnly ==> InOrBelow(Parent(q), l.root)
    ensures Load(l, fs, path) == Loaded(Success(fs[q].content), [])
  {
    NoColonIsLocal(path);
    if l.loadRestrictor == RestrictionRootOnly {
      LoadRootOnly(l, fs, path);
    } else {
      LoadUnrestricted(l, fs, path);
    }
  }

  /** Under RestrictionRootOnly a local path resolving to a file outside the root is refused. */
  lemma LoadRefused(l: FileLoader, fs: Nodes, path: string, q: Path)
    requires ':' !in path && l.loadRestrictor == RestrictionRootOnly
    requires Resolve(fs, Join(l.root, path)) == Some(q) && fs[q].File?
    requires !InOrBelow(Parent(q), l.root)
    ensures Load(l, fs, path) == Loaded(Failure(NotInOrBelow(Join(l.root, path), l.root)), [])
  {
    NoColonIsLocal(path);
    LoadRootOnly(l, fs, path);
  }

  lemma {:induction false} NoColonSlashed(rest: Path)
    requires forall i | 0 <= i < |rest| :: ':' !in rest[i]
    ensures ':' !in Slashed(rest)
    decreases |rest|
  {
    if rest != [] {
      NoColonSlashed(rest[1..]);
    }
  }

  /** The reference w/rest[0]/... reads the file root/w/rest. */
  lemma LoadsRef(l: FileLoader, fs: Nodes, w: Segment, rest: Path, p: Path)
    requires ':' !in w && forall i | 0 <= i < |rest| :: ':' !in rest[i]
    requires p == l.root + [w] + rest && p in fs && fs[p].File?
    ensures Load(l, fs, w + Slashed(rest)) == Loaded(Success(fs[p].content), [])
  {
    NoColonSlashed(rest);
    JoinWords(l.root, w, rest);
    assert Parent(p)[..|l.root|] == l.root;
    ResolvePlain(fs, p);
    LoadsFile(l, fs, w + Slashed(rest), p);
  }

  lemma LoadA(fs: Nodes)
    requires TestFsShape(fs)
    ensures Load(AtTop, fs, Foo + "/" + Project + "/" + FileA) == Loaded(Success("fileA content"), [])
  {
    NoColons();
    Words3(Foo, Project, FileA);
    LoadsRef(AtTop, fs, Foo, [Project, FileA], [Foo, Project, FileA]);
  }

  lemma LoadB(fs: Nodes)
    requires TestFsShape(fs)
    ensures Load(AtTop, fs, Foo + "/" + Project + "/" + Subdir1 + "/" + FileB) == Loaded(Success("fileB content"), [])
  {
    NoColons();
    Words4(Foo, Project, Subdir1, FileB);
    LoadsRef(AtTop, fs, Foo, [Project, Subdir1, FileB], [Foo, Project, Subdir1, FileB]);
  }

  lemma LoadC(fs: Nodes)
    requires TestFsShape(fs)
    ensures Load(AtTop, fs, Foo + "/" + Project + "/" + Subdir2 + "/" + FileC) == Loaded(Success("fileC content"), [])
  {
    NoColons();
    Words4(Foo, Project, Subdir2, FileC);
    LoadsRef(AtTop, fs, Foo, [Project, Subdir2, FileC], [Foo, Project, Subdir2, FileC]);
  }

  lemma LoadD(fs: Nodes)
    requires TestFsShape(fs)
    ensures Load(AtTop, fs, Foo + "/" + Project + "/" + FileD) == Loaded(Success("fileD content"), [])
  {
    NoColons();
    Words3(Foo, Project, FileD);
    LoadsRef(AtTop, fs, Foo, [Project, FileD], [Foo, Project, FileD]);
  }

  /** TestLoaderLoad: each test file loads from "/" by its own path. */
  lemma LoadFromTop(fs: Nodes)
    requires TestFsShape(fs)
    ensures forall i | 0 <= i < |TestCases| ::
      Load(AtTop, fs, TestCases[i].path) == Loaded(Success(TestCases[i].expectedContent), [])
  {
    forall i | 0 <= i < |TestCases|
      ensures Load(AtTop, fs, TestCases[i].path) == Loaded(Success(TestCases[i].expectedContent), [])
    {
      if i == 0 {
        LoadA(fs);
      } else if i == 1 {
        LoadB(fs);
      } else if i == 2 {
        LoadC(fs);
      } else {
        LoadD(fs);
      }
    }
  }

  /** No loader of l's chain came from a clone. */
  predicate NoClones(l: FileLoader) {
    forall i | 0 <= i < |l.Visits()| :: l.Visits()[i].repo.None?
  }

  /** No root of l's chain is p or below it. */
  predicate Unvisited(l: FileLoader, p: Path) {
    forall i | 0 <= i < |l.Visits()| :: !(p <= l.Visits()[i].root)
  }

  /** New of a local reference naming a directory that no visited root is in or below, with no clone in the chain. */
  lemma NewInto(l: FileLoader, fs: Nodes, path: string, p: Path)
    requires path != "" && ParseRepoSpec(path).None?
    requires Join(l.root, path) == p && p in fs && fs[p] == Dir
    requires NoClones(l) && Unvisited(l, p)
    ensures New(l, fs, path) == Success(FileLoader(l.Visits(), p, l.loadRestrictor, None, None, l.cloner))
  {
    ResolvePlain(fs, p);
    NewLocal(l, fs, path);
  }

  /** New of a local directory inside the chain's clone, neither visited nor above a visited root, descends into it. */
  lemma NewWithin(l: FileLoader, fs: Nodes, path: string, p: Path)
    requires path != "" && ParseRepoSpec(path).None?
    requires Join(l.root, path) == p && p in fs && fs[p] == Dir
    requires ContainingRepo(l.Visits()).Some? && InOrBelow(p, ContainingRepo(l.Visits()).value.cloneDir)
    requires Unvisited(l, p)
    ensures New(l, fs, path) == Success(FileLoader(l.Visits(), p, l.loadRestrictor, None, None, l.cloner))
  {
    ResolvePlain(fs, p);
    NewLocal(l, fs, path);
  }

  /** New of a local reference naming a visited root, or a directory above one, is a root cycle. */
  lemma NewVisitedFails(l: FileLoader, fs: Nodes, path: string, p: Path, i: int)
    requires path != "" && ParseRepoSpec(path).None?
    requires Join(l.root, path) == p && p in fs && fs[p] == Dir
    requires NoClones(l) && 0 <= i < |l.Visits()| && p <= l.Visits()[i].root
    ensures New(l, fs, path).Failure? && New(l, fs, path).error.RootCycle?
  {
    ResolvePlain(fs, p);
    assert ContainmentViolation(l.Visits(), p).None?;
    assert VisitedInOrBelow(l.Visits(), p).Some?;
  }

  /** The loader rooted at /foo/project, and then /foo/project/subdir1, in TestLoaderNewSubDir. */
  const DownSubdir1: FileLoader := FileLoader(AtProject.Visits(), [Foo, Project, Subdir1], RestrictionRootOnly, None, None, ClonerUsingGitExec)

  /** New("foo/project") and New("foo/project/") from "/" give the loader at /foo/project. */
  lemma NewProject(fs: Nodes)
    requires TestFsShape(fs)
    ensures New(AtTop, fs, Foo + "/" + Project) == Success(AtProject)
    ensures New(AtTop, fs, Foo + "/" + Project + "/") == Success(AtProject)
    ensures AtProject.Root() == "/" + Foo + "/" + Project
  {
    Words2(Foo, Project);
    JoinWords([], Foo, [Project]);
    TopVisits([Foo, Project]);
    NotRemote(Foo + "/" + Project);
    NewInto(AtTop, fs, Foo + "/" + Project, [Foo, Project]);
    JoinTrailingSlash([], Foo + "/" + Project);
    NotRemote(Foo + "/" + Project + "/");
    NewInto(AtTop, fs, Foo + "/" + Project + "/", [Foo, Project]);
    Printed2(Foo, Project);
  }

  lemma TopVisits(p: Path)
    requires p != []
    ensures NoClones(AtTop) && Unvisited(AtTop, p)
  {
    assert AtTop.Visits() == [Visit([], None)];
  }

  lemma ProjectVisits(p: Path)
    requires |p| > 2
    ensures NoClones(AtProject) && Unvisited(AtProject, p)
  {
    assert AtProject.Visits() == [Visit([], None), Visit([Foo, Project], None)];
  }

  /** TestLoaderNewSubDir: New("subdir1") from /foo/project. */
  lemma NewSubDir(fs: Nodes)
    requires TestFsShape(fs)
    ensures New(AtProject, fs, Subdir1) == Success(DownSubdir1)
    ensures DownSubdir1.Root() == "/" + Foo + "/" + Project + "/" + Subdir1
  {
    JoinSegment([Foo, Project], Subdir1);
    assert Join(AtProject.root, Subdir1) == [Foo, Project, Subdir1];
    ProjectVisits([Foo, Project, Subdir1]);
    NotRemote(Subdir1);
    NewInto(AtProject, fs, Subdir1, [Foo, Project, Subdir1]);
    Printed3(Foo, Project, Subdir1);
  }

  /** A one-component reference reads the file of that name in the root. */
  lemma LoadsWord(l: FileLoader, fs: Nodes, w: Segment, p: Path)
    requires ':' !in w
    requires p == l.root + [w] && p in fs && fs[p].File?
    ensures Load(l, fs, w) == Loaded(Success(fs[p].content), [])
  {
    assert w + Slashed([]) == w;
    assert l.root + [w] + [] == p;
    LoadsRef(l, fs, w, [], p);
  }

  /** TestLoaderNewSubDir: then Load("fileB.yaml") there. */
  lemma LoadFromSubdir1(fs: Nodes)
    requires TestFsShape(fs)
    ensures Load(DownSubdir1, fs, FileB) == Loaded(Success("fileB content"), [])
  {
    NoColons();
    LoadsWord(DownSubdir1, fs, FileB, [Foo, Project, Subdir1, FileB]);
  }

  lemma ProjectLoadA(fs: Nodes)
    requires TestFsShape(fs)
    ensures Load(AtProject, fs, FileA) == Loaded(Success("fileA content"), [])
  {
    NoColons();
    LoadsWord(AtProject, fs, FileA, [Foo, Project, FileA]);
  }

  lemma ProjectLoadB(fs: Nodes)
    requires TestFsShape(fs)
    ensures Load(AtProject, fs, Subdir1 + "/" + FileB) == Loaded(Success("fileB content"), [])
  {
    NoColons();
    Words2(Subdir1, FileB);
    LoadsRef(AtProject, fs, Subdir1, [FileB], [Foo, Project, Subdir1, FileB]);
  }

  lemma ProjectLoadC(fs: Nodes)
    requires TestFsShape(fs)
    ensures Load(AtProject, fs, Subdir2 + "/" + FileC) == Loaded(Success("fileC content"), [])
  {
    NoColons();
    Words2(Subdir2, FileC);
    LoadsRef(AtProject, fs, Subdir2, [FileC], [Foo, Project, Subdir2, FileC]);
  }

  lemma ProjectLoadD(fs: Nodes)
    requires TestFsShape(fs)
    ensures Load(AtProject, fs, FileD) == Loaded(Success("fileD content"), [])
  {
    NoColons();
    LoadsWord(AtProject, fs, FileD, [Foo, Project, FileD]);
  }

  // TestLoaderBadRelative: from /foo/project/subdir1 only the sibling subdir2 is reachable.

  const AtSubdir1: FileLoader := FileLoader(AtTop.Visits(), [Foo, Project, Subdir1], RestrictionRootOnly, None, None, ClonerUsingGitExec)

  const AtSubdir2: FileLoader := FileLoader(AtSubdir1.Visits(), [Foo, Project, Subdir2], RestrictionRootOnly, None, None, ClonerUsingGitExec)

  lemma Subdir1Visits()
    ensures NoClones(AtSubdir1) && |AtSubdir1.Visits()| == 2 && AtSubdir1.Visits()[1].root == [Foo, Project, Subdir1]
    ensures Unvisited(AtSubdir1, [Foo, Project, Subdir2])
  {
    assert AtSubdir1.Visits() == [Visit([], None), Visit([Foo, Project, Subdir1], None)];
    assert [Foo, Project, Subdir2][2] != [Foo, Project, Subdir1][2];
  }

  lemma Subdir2Visits()
    ensures NoClones(AtSubdir2) && |AtSubdir2.Visits()| == 3 && AtSubdir2.Visits()[1].root == [Foo, Project, Subdir1]
  {
    assert AtSubdir2.Visits() == [Visit([], None), Visit([Foo, Project, Subdir1], None), Visit([Foo, Project, Subdir2], None)];
  }

  lemma NewSubdir1(fs: Nodes)
    requires TestFsShape(fs)
    ensures New(AtTop, fs, Foo + "/" + Project + "/" + Subdir1) == Success(AtSubdir1)
    ensures AtSubdir1.Root() == "/" + Foo + "/" + Project + "/" + Subdir1
  {
    Words3(Foo, Project, Subdir1);
    JoinWords([], Foo, [Project, Subdir1]);
    assert Join([], Foo + "/" + Project + "/" + Subdir1) == [Foo, Project, Subdir1];
    TopVisits([Foo, Project, Subdir1]);
    NotRemote(Foo + "/" + Project + "/" + Subdir1);
    NewInto(AtTop, fs, Foo + "/" + Project + "/" + Subdir1, [Foo, Project, Subdir1]);
    Printed3(Foo, Project, Subdir1);
  }

  /** A file is not a directory to descend into. */
  lemma NewOfFileFails(fs: Nodes)
    requires TestFsShape(fs)
    ensures New(AtSubdir1, fs, FileB) == Failure(NotADirectory([Foo, Project, Subdir1, FileB]))
  {
    var p := [Foo, Project, Subdir1, FileB];
    assert Join(AtSubdir1.root, FileB) == p by {
      JoinSegment(AtSubdir1.root, FileB);
    }
    NotRemote(FileB);
    ResolvePlain(fs, p);
  }

  /** ".": staying at the same place. */
  lemma NewSelfCycles(fs: Nodes)
    requires TestFsShape(fs)
    ensures New(AtSubdir1, fs, ".").Failure? && New(AtSubdir1, fs, ".").error.RootCycle?
  {
    JoinDot(AtSubdir1.root);
    Subdir1Visits();
    NotRemote(".");
    NewVisitedFails(AtSubdir1, fs, ".", [Foo, Project, Subdir1], 1);
  }

  /** "../subdir1": up and back down into the same place. */
  lemma NewUpAndBackCycles(fs: Nodes)
    requires TestFsShape(fs)
    ensures New(AtSubdir1, fs, ".." + "/" + Subdir1).Failure? && New(AtSubdir1, fs, ".." + "/" + Subdir1).error.RootCycle?
  {
    assert Join(AtSubdir1.root, ".." + "/" + Subdir1) == [Foo, Project, Subdir1] by {
      JoinUp(AtSubdir1.root, Subdir1);
      assert Parent(AtSubdir1.root) == [Foo, Project];
      JoinSegment([Foo, Project], Subdir1);
    }
    Subdir1Visits();
    NotRemote(".." + "/" + Subdir1);
    NewVisitedFails(AtSubdir1, fs, ".." + "/" + Subdir1, [Foo, Project, Subdir1], 1);
  }

  /** "..": up by a relative path. */
  lemma NewParentCycles(fs: Nodes)
    requires TestFsShape(fs)
    ensures New(AtSubdir1, fs, "..").Failure? && New(AtSubdir1, fs, "..").error.RootCycle?
  {
    JoinDotDot(AtSubdir1.root);
    assert Parent(AtSubdir1.root) == [Foo, Project];
    Subdir1Visits();
    NotRemote("..");
    NewVisitedFails(AtSubdir1, fs, "..", [Foo, Project], 1);
  }

  /** "/foo/project": up by an absolute path. */
  lemma NewAbsoluteUpCycles(fs: Nodes)
    requires TestFsShape(fs)
    ensures New(AtSubdir1, fs, "/" + Foo + "/" + Project).Failure?
    ensures New(AtSubdir1, fs, "/" + Foo + "/" + Project).error.RootCycle?
  {
    Printed2(Foo, Project);
    RenderJoin(AtSubdir1.root, [Foo, Project]);
    Subdir1Visits();
    NotRemote("/" + Foo + "/" + Project);
    NewVisitedFails(AtSubdir1, fs, "/" + Foo + "/" + Project, [Foo, Project], 1);
  }

  /** "/": the top. */
  lemma NewTopCycles(fs: Nodes)
    requires TestFsShape(fs)
    ensures New(AtSubdir1, fs, "/").Failure? && New(AtSubdir1, fs, "/").error.RootCycle?
  {
    JoinSlash(AtSubdir1.root);
    Subdir1Visits();
    NotRemote("/");
    NewVisitedFails(AtSubdir1, fs, "/", [], 1);
  }

  /** From /foo/project/a, "../b" names /foo/project/b. */
  lemma UpTo(a: Segment, b: Segment)
    ensures Join([Foo, Project, a], ".." + "/" + b) == [Foo, Project, b]
  {
    JoinUp([Foo, Project, a], b);
    assert Parent([Foo, Project, a]) == [Foo, Project];
    JoinSegment([Foo, Project], b);
  }

  /** "../subdir2": up and down to a sibling. */
  lemma NewSibling(fs: Nodes)
    requires TestFsShape(fs)
    ensures New(AtSubdir1, fs, ".." + "/" + Subdir2) == Success(AtSubdir2)
  {
    UpTo(Subdir1, Subdir2);
    assert New(AtSubdir1, fs, ".." + "/" + Subdir2) == Success(FileLoader(AtSubdir1.Visits(), [Foo, Project, Subdir2], AtSubdir1.loadRestrictor, None, None, AtSubdir1.cloner)) by {
      Subdir1Visits();
      NotRemote(".." + "/" + Subdir2);
      NewInto(AtSubdir1, fs, ".." + "/" + Subdir2, [Foo, Project, Subdir2]);
    }
  }

  lemma SiblingRoot()
    ensures AtSubdir2.Root() == "/" + Foo + "/" + Project + "/" + Subdir2
  {
    Printed3(Foo, Project, Subdir2);
  }

  lemma LoadFromSibling(fs: Nodes)
    requires TestFsShape(fs)
    ensures Load(AtSubdir2, fs, FileC) == Loaded(Success("fileC content"), [])
  {
    NoColons();
    LoadsWord(AtSubdir2, fs, FileC, [Foo, Project, Subdir2, FileC]);
  }

  /** "../subdir1" from the sibling: back to a visited directory. */
  lemma NewBackCycles(fs: Nodes)
    requires TestFsShape(fs)
    ensures New(AtSubdir2, fs, ".." + "/" + Subdir1).Failure? && New(AtSubdir2, fs, ".." + "/" + Subdir1).error.RootCycle?
  {
    assert Join(AtSubdir2.root, ".." + "/" + Subdir1) == [Foo, Project, Subdir1] by {
      JoinUp(AtSubdir2.root, Subdir1);
      assert Parent(AtSubdir2.root) == [Foo, Project];
      JoinSegment([Foo, Project], Subdir1);
    }
    Subdir2Visits();
    NotRemote(".." + "/" + Subdir1);
    NewVisitedFails(AtSubdir2, fs, ".." + "/" + Subdir1, [Foo, Project, Subdir1], 1);
  }

  // TestLoaderMisc

  const Https: Segment := "https:"
  const GoogleCom: Segment := "google.com"

  /** "w://a/b" is w, a doubled separator, then a and b. */
  lemma HostAndPath(w: Segment, a: Segment, b: Segment)
    ensures w + "/" + "/" + a + "/" + b == w + [Separator] + Slashed([a, b])
  {
    Printed2(a, b);
    var ab := "/" + a + "/" + b;
    assert w + "/" + ab == w + "/" + "/" + a + "/" + b;
  }

  lemma NewEmptyFails(fs: Nodes)
    ensures New(AtTop, fs, "") == Failure(EmptyRoot)
  {
  }

  /**
   * "https://google.com/project" is not a repository reference, so it is
   * read as a local path, which does not exist.
   */
  lemma NewWebAddressFails(fs: Nodes)
    requires TestFsShape(fs)
    ensures New(AtTop, fs, Https + "/" + "/" + GoogleCom + "/" + Project) == Failure(NoSuchPath([Https, GoogleCom, Project]))
  {
    var s := Https + "/" + "/" + GoogleCom + "/" + Project;
    assert Join([], s) == [Https, GoogleCom, Project] by {
      HostAndPath(Https, GoogleCom, Project);
      JoinDoubleSlash([], Https, [GoogleCom, Project]);
    }
    assert [Https, GoogleCom, Project] !in fs by {
      assert Https != Foo;
    }
    NotRemote(s);
  }

  // TestRestrictionRootOnlyInRealLoader and TestRestrictionNoneInRealLoader,
  // for any restriction, any fresh directory and the layout built in it.

  lemma LayoutNoColons()
    ensures ':' !in BaseName && ':' !in OkayData && ':' !in ExteriorData
    ensures ':' !in SymLinkToOkayData && ':' !in SymLinkToExteriorData && ':' !in ".."
  {
  }

  /** newLoaderOrDie(lr, fSys, dir). */
  function AtDir(lr: LoadRestriction, dir: Path): FileLoader {
    FileLoader([], dir, lr, None, None, ClonerUsingGitExec)
  }

  /** The loader doSanityChecksAndDropIntoBase returns. */
  function AtBase(lr: LoadRestriction, dir: Path): FileLoader {
    FileLoader([Visit(dir, None)], dir + [BaseName], lr, None, None, ClonerUsingGitExec)
  }

  lemma RestrictionLoader(lr: LoadRestriction, fs: Nodes, dir: Path)
    requires LayoutShape(fs, dir)
    ensures NewLoaderOrDie(lr, fs, Render(dir)) == Success(AtDir(lr, dir))
  {
    RenderJoin([], dir);
    ResolvePlain(fs, dir);
  }

  /** base/okayData is read from dir. */
  lemma SanityOkay(lr: LoadRestriction, fs: Nodes, dir: Path)
    requires LayoutShape(fs, dir)
    ensures Load(AtDir(lr, dir), fs, BaseName + "/" + OkayData) == Loaded(Success(ContentOk), [])
  {
    LayoutNoColons();
    Words2(BaseName, OkayData);
    LoadsRef(AtDir(lr, dir), fs, BaseName, [OkayData], dir + [BaseName] + [OkayData]);
  }

  /** exteriorData is read from dir. */
  lemma SanityExterior(lr: LoadRestriction, fs: Nodes, dir: Path)
    requires LayoutShape(fs, dir)
    ensures Load(AtDir(lr, dir), fs, ExteriorData) == Loaded(Success(ContentExteriorData), [])
  {
    LayoutNoColons();
    LoadsWord(AtDir(lr, dir), fs, ExteriorData, dir + [ExteriorData]);
  }

  /** New("base") from dir. */
  lemma DropIntoBase(lr: LoadRestriction, fs: Nodes, dir: Path)
    requires LayoutShape(fs, dir)
    ensures New(AtDir(lr, dir), fs, BaseName) == Success(AtBase(lr, dir))
  {
    var l, base := AtDir(lr, dir), dir + [BaseName];
    JoinSegment(dir, BaseName);
    assert l.Visits() == [Visit(dir, None)];
    assert NoClones(l) && Unvisited(l, base);
    NotRemote(BaseName);
    NewInto(l, fs, BaseName, base);
  }

  /** okayData is read from base. */
  lemma BaseOkay(lr: LoadRestriction, fs: Nodes, dir: Path)
    requires LayoutShape(fs, dir)
    ensures Load(AtBase(lr, dir), fs, OkayData) == Loaded(Success(ContentOk), [])
  {
    LayoutNoColons();
    LoadsWord(AtBase(lr, dir), fs, OkayData, dir + [BaseName] + [OkayData]);
  }

  /** The link to okayData, inside base, is read from base. */
  lemma BaseLinkOkay(lr: LoadRestriction, fs: Nodes, dir: Path)
    requires LayoutShape(fs, dir)
    ensures Load(AtBase(lr, dir), fs, SymLinkToOkayData) == Loaded(Success(ContentOk), [])
  {
    var base := dir + [BaseName];
    var okay, link := base + [OkayData], base + [SymLinkToOkayData];
    LayoutNoColons();
    JoinSegment(base, SymLinkToOkayData);
    RenderJoin(base, okay);
    ResolveLink(fs, link, okay);
    LoadsFile(AtBase(lr, dir), fs, SymLinkToOkayData, okay);
  }

  /** Under RestrictionRootOnly the link to exteriorData is refused: its target is outside base. */
  lemma RootOnlyRefusesLink(fs: Nodes, dir: Path)
    requires LayoutShape(fs, dir)
    ensures var base := dir + [BaseName];
      Load(AtBase(RestrictionRootOnly, dir), fs, SymLinkToExteriorData)
        == Loaded(Failure(NotInOrBelow(base + [SymLinkToExteriorData], base)), [])
    ensures Contains(Message(Load(AtBase(RestrictionRootOnly, dir), fs, SymLinkToExteriorData).content.error), "is not in or below")
  {
    var base := dir + [BaseName];
    var ext, link := dir + [ExteriorData], base + [SymLinkToExteriorData];
    LayoutNoColons();
    JoinSegment(base, SymLinkToExteriorData);
    RenderJoin(base, ext);
    ResolveLink(fs, link, ext);
    assert !InOrBelow(Parent(ext), base);
    LoadRefused(AtBase(RestrictionRootOnly, dir), fs, SymLinkToExteriorData, ext);
    NotInOrBelowMessage(link, base);
  }

  /** "../exteriorData" from base names dir/exteriorData. */
  lemma UpToExterior(dir: Path)
    ensures Join(dir + [BaseName], ".." + "/" + ExteriorData) == dir + [ExteriorData]
  {
    JoinUp(dir + [BaseName], ExteriorData);
    assert Parent(dir + [BaseName]) == dir;
    JoinSegment(dir, ExteriorData);
  }

  /** Under RestrictionRootOnly reading up from base is refused, though dir could read the file. */
  lemma RootOnlyRefusesUp(fs: Nodes, dir: Path)
    requires LayoutShape(fs, dir)
    ensures var base := dir + [BaseName];
      Load(AtBase(RestrictionRootOnly, dir), fs, ".." + "/" + ExteriorData)
        == Loaded(Failure(NotInOrBelow(dir + [ExteriorData], base)), [])
    ensures Contains(Message(Load(AtBase(RestrictionRootOnly, dir), fs, ".." + "/" + ExteriorData).content.error), "is not in or below")
  {
    var base, ext := dir + [BaseName], dir + [ExteriorData];
    LayoutNoColons();
    UpToExterior(dir);
    ResolvePlain(fs, ext);
    assert !InOrBelow(Parent(ext), base);
    LoadRefused(AtBase(RestrictionRootOnly, dir), fs, ".." + "/" + ExteriorData, ext);
    NotInOrBelowMessage(ext, base);
  }

  /** Under RestrictionNone the link to exteriorData is read. */
  lemma NoneReadsLink(fs: Nodes, dir: Path)
    requires LayoutShape(fs, dir)
    ensures Load(AtBase(RestrictionNone, dir), fs, SymLinkToExteriorData) == Loaded(Success(ContentExteriorData), [])
  {
    var base := dir + [BaseName];
    var ext, link := dir + [ExteriorData], base + [SymLinkToExteriorData];
    LayoutNoColons();
    JoinSegment(base, SymLinkToExteriorData);
    RenderJoin(base, ext);
    ResolveLink(fs, link, ext);
    LoadsFile(AtBase(RestrictionNone, dir), fs, SymLinkToExteriorData, ext);
  }

  /** Under RestrictionNone reading up from base works. */
  lemma NoneReadsUp(fs: Nodes, dir: Path)
    requires LayoutShape(fs, dir)
    ensures Load(AtBase(RestrictionNone, dir), fs, ".." + "/" + ExteriorData) == Loaded(Success(ContentExteriorData), [])
  {
    var ext := dir + [ExteriorData];
    LayoutNoColons();
    UpToExterior(dir);
    ResolvePlain(fs, ext);
    LoadsFile(AtBase(RestrictionNone, dir), fs, ".." + "/" + ExteriorData, ext);
  }

  // ---------------------------------------------------------------------
  // Remote references, for any names with the distinctness the tests rely on

  /** The repository part of github.com/org/repo. */
  function RepoOf(org: Segment, repo: Segment): string {
    GitHubHost + org + [Separator] + repo
  }

  lemma Url0(org: Segment, repo: Segment)
    ensures ParseRepoSpec(GitHubHost + org + "/" + repo) == Some(RepoSpec(RepoOf(org, repo), []))
  {
    ParseRepoSpecRaw(org, repo, []);
    assert GitHubHost + org + [Separator] + repo + Slashed([]) == GitHubHost + org + "/" + repo;
  }

  lemma Url1(org: Segment, repo: Segment, a: Segment)
    ensures ParseRepoSpec(GitHubHost + org + "/" + repo + "/" + a) == Some(RepoSpec(RepoOf(org, repo), [a]))
  {
    ParseRepoSpecRaw(org, repo, [a]);
    assert Slashed([a]) == "/" + a by {
      SlashedCons(a, []);
      assert [a] + [] == [a];
      assert "/" + a + "" == "/" + a;
    }
    var sa := "/" + a;
    assert GitHubHost + org + [Separator] + repo + sa == GitHubHost + org + "/" + repo + "/" + a;
  }

  lemma Url2(org: Segment, repo: Segment, a: Segment, b: Segment)
    ensures ParseRepoSpec(GitHubHost + org + "/" + repo + "/" + a + "/" + b) == Some(RepoSpec(RepoOf(org, repo), [a, b]))
  {
    ParseRepoSpecRaw(org, repo, [a, b]);
    Printed2(a, b);
    var sab := "/" + a + "/" + b;
    assert GitHubHost + org + [Separator] + repo + sab == GitHubHost + org + "/" + repo + "/" + a + "/" + b;
  }

  lemma Printed4(a: Segment, b: Segment, c: Segment, d: Segment)
    ensures Render([a, b, c, d]) == "/" + a + "/" + b + "/" + c + "/" + d
  {
    Printed3(b, c, d);
    assert Slashed([a, b, c, d]) == [Separator] + a + Slashed([b, c, d]) by {
      SlashedCons(a, [b, c, d]);
      assert [a] + [b, c, d] == [a, b, c, d];
    }
    var bcd := "/" + b + "/" + c + "/" + d;
    assert "/" + a + bcd == "/" + a + "/" + b + "/" + c + "/" + d;
  }

  /** From root/x, "../y" names root/y. */
  lemma UpOne(root: Path, x: Segment, y: Segment)
    ensures Join(root + [x], ".." + "/" + y) == root + [y]
  {
    JoinUp(root + [x], y);
    assert Parent(root + [x]) == root;
    JoinSegment(root, y);
  }

  /** From root/x/y/z, "../../../w" names root/w. */
  lemma UpThree(root: Path, x: Segment, y: Segment, z: Segment, w: Segment)
    ensures Join(root + [x, y, z], ".." + "/" + ".." + "/" + ".." + "/" + w) == root + [w]
  {
    var t1 := ".." + "/" + w;
    var t2 := ".." + "/" + t1;
    assert ".." + "/" + ".." + "/" + ".." + "/" + w == ".." + "/" + t2;
    JoinUp(root + [x, y, z], t2);
    assert Parent(root + [x, y, z]) == root + [x, y];
    JoinUp(root + [x, y], t1);
    assert Parent(root + [x, y]) == root + [x];
    UpOne(root, x, w);
  }

  /** Proof step: a sequence fact that is costly to find inside the scenario lemmas. */
  lemma OneThenTwo(a: Segment, b: Segment, c: Segment)
    ensures [a] + [b, c] == [a, b, c]
  {
  }

  // TestNewLoaderAtGitClone

  const KustomizationFileName: Segment := "kustomization.yaml"

  /** The in-memory file system: tmp/foo/base holding a kustomization file. */
  function CloneTestFs(tmp: Segment, foo: Segment, base: Segment): Nodes {
    WithFile(WithDirs(EmptyFs(), [tmp, foo, base]), [tmp, foo, base, KustomizationFileName], "\nwhatever\n")
  }

  lemma CloneTestFsShape(tmp: Segment, foo: Segment, base: Segment, overlay: Segment)
    ensures var fs := CloneTestFs(tmp, foo, base);
      var fs2 := WithDirs(fs, [tmp, foo, overlay]);
      && WellFormed(fs) && [tmp, foo, base] in fs && fs[[tmp, foo, base]] == Dir
      && WellFormed(fs2) && [tmp, foo, overlay] in fs2 && fs2[[tmp, foo, overlay]] == Dir
  {
    var e := EmptyFs();
    var p, k := [tmp, foo, base], [tmp, foo, base, KustomizationFileName];
    WithDirsKeeps(e, p);
    var fs1 := WithDirs(e, p);
    assert k !in fs1 by {
      assert !(k <= p);
    }
    WithFileKeeps(fs1, k, "\nwhatever\n");
    var fs := CloneTestFs(tmp, foo, base);
    assert fs[p] == Dir;
    assert forall q | q in fs && fs[q] != Dir :: !(q <= [tmp, foo, overlay]) by {
      forall q | q in fs && fs[q] != Dir ensures !(q <= [tmp, foo, overlay]) {
        assert q == k;
      }
    }
    WithDirsKeeps(fs, [tmp, foo, overlay]);
  }

  /** The loader newLoaderAtGitClone gives for github.com/org/repo/foo/base cloned in /tmp. */
  function CloneLoader(tmp: Segment, foo: Segment, base: Segment, org: Segment, repo: Segment): FileLoader {
    FileLoader([], [tmp, foo, base], RestrictionRootOnly,
      Some(Clone(RepoSpec(RepoOf(org, repo), [foo, base]), [tmp])), None, DoNothingCloner([tmp]))
  }

  lemma GitCloneLoader(tmp: Segment, foo: Segment, base: Segment, org: Segment, repo: Segment)
    ensures var url := GitHubHost + org + "/" + repo + "/" + foo + "/" + base;
      var spec := RepoSpec(RepoOf(org, repo), [foo, base]);
      && ParseRepoSpec(url) == Some(spec)
      && NewLoaderAtGitClone(spec, CloneTestFs(tmp, foo, base), [], DoNothingCloner([tmp]))
           == Success(CloneLoader(tmp, foo, base, org, repo))
      && CloneLoader(tmp, foo, base, org, repo).Root() == "/" + tmp + "/" + foo + "/" + base
  {
    Url2(org, repo, foo, base);
    CloneTestFsShape(tmp, foo, base, base);
    ResolvePlain(CloneTestFs(tmp, foo, base), [tmp, foo, base]);
    OneThenTwo(tmp, foo, base);
    Printed3(tmp, foo, base);
  }

  /** The same reference again, and one to a directory above it in the repository, are cycles. */
  lemma GitCloneCycles(tmp: Segment, foo: Segment, base: Segment, org: Segment, repo: Segment)
    ensures var l, fs := CloneLoader(tmp, foo, base, org, repo), CloneTestFs(tmp, foo, base);
      var url := GitHubHost + org + "/" + repo + "/" + foo + "/" + base;
      var up := GitHubHost + org + "/" + repo + "/" + foo;
      && New(l, fs, url).Failure? && New(l, fs, url).error.RepoCycle?
      && New(l, fs, up).Failure? && New(l, fs, up).error.RepoCycle?
  {
    var l, fs := CloneLoader(tmp, foo, base, org, repo), CloneTestFs(tmp, foo, base);
    var url := GitHubHost + org + "/" + repo + "/" + foo + "/" + base;
    var up := GitHubHost + org + "/" + repo + "/" + foo;
    Url2(org, repo, foo, base);
    Url1(org, repo, foo);
    assert Covers(l.Visits()[0], RepoSpec(RepoOf(org, repo), [foo, base]));
    assert Covers(l.Visits()[0], RepoSpec(RepoOf(org, repo), [foo]));
    NewRemote(l, fs, url);
    NewRemote(l, fs, up);
  }

  /** A reference to a sibling directory of the repository is not a cycle. */
  lemma GitCloneSibling(tmp: Segment, foo: Segment, base: Segment, overlay: Segment, org: Segment, repo: Segment)
    requires base != overlay
    ensures var l := CloneLoader(tmp, foo, base, org, repo);
      var fs := WithDirs(CloneTestFs(tmp, foo, base), [tmp, foo, overlay]);
      var url := GitHubHost + org + "/" + repo + "/" + foo + "/" + overlay;
      var spec := RepoSpec(RepoOf(org, repo), [foo, overlay]);
      && New(l, fs, url) == Success(FileLoader(l.Visits(), [tmp, foo, overlay], RestrictionRootOnly,
                                               Some(Clone(spec, [tmp])), None, DoNothingCloner([tmp])))
      && New(l, fs, url).value.Root() == "/" + tmp + "/" + foo + "/" + overlay
  {
    var l := CloneLoader(tmp, foo, base, org, repo);
    var fs := WithDirs(CloneTestFs(tmp, foo, base), [tmp, foo, overlay]);
    var url := GitHubHost + org + "/" + repo + "/" + foo + "/" + overlay;
    var spec := RepoSpec(RepoOf(org, repo), [foo, overlay]);
    assert New(l, fs, url) == NewLoaderAtGitClone(spec, fs, l.Visits(), l.cloner) by {
      Url2(org, repo, foo, overlay);
      assert l.Visits() == [Visit([tmp, foo, base], l.repoSpec)];
      assert !Covers(l.Visits()[0], spec) by {
        assert [foo, overlay][1] != [foo, base][1];
      }
      NewRemote(l, fs, url);
    }
    CloneTestFsShape(tmp, foo, base, overlay);
    ResolvePlain(fs, [tmp, foo, overlay]);
    OneThenTwo(tmp, foo, overlay);
    Printed3(tmp, foo, overlay);
  }

  /** MkdirAll on a file system of directories only succeeds, keeps it so, and adds p. */
  lemma AllDirsKept(fs: Nodes, p: Path)
    requires WellFormed(fs) && forall q | q in fs :: fs[q] == Dir
    ensures CanMkdirAll(fs, p)
    ensures var r := WithDirs(fs, p);
      && WellFormed(r) && (forall q | q in r :: r[q] == Dir)
      && p in r && forall q | q in fs :: q in r
  {
    WithDirsKeeps(fs, p);
  }

  // TestLoaderDisallowsLocalBaseFromRemoteOverlay

  /** /top/high, /top/clone/foo/base and /top/clone/foo/overlay. */
  function OverlayTestFs(top: Segment, clone: Segment, high: Segment, foo: Segment, base: Segment, overlay: Segment): Nodes {
    WithDirs(WithDirs(WithDirs(EmptyFs(), [top, high]), [top, clone, foo, base]), [top, clone, foo, overlay])
  }

  lemma OverlayTestFsShape(top: Segment, clone: Segment, high: Segment, foo: Segment, base: Segment, overlay: Segment)
    ensures var fs := OverlayTestFs(top, clone, high, foo, base, overlay);
      WellFormed(fs) && OverlayShape(fs, top, clone, high, foo, base, overlay)
  {
    var fs1 := WithDirs(EmptyFs(), [top, high]);
    AllDirsKept(EmptyFs(), [top, high]);
    var fs2 := WithDirs(fs1, [top, clone, foo, base]);
    AllDirsKept(fs1, [top, clone, foo, base]);
    AllDirsKept(fs2, [top, clone, foo, overlay]);
  }

  /** The directories the overlay tests need. */
  predicate OverlayShape(fs: Nodes, top: Segment, clone: Segment, high: Segment, foo: Segment, base: Segment, overlay: Segment) {
    && [top, high] in fs && fs[[top, high]] == Dir
    && [top, clone, foo, base] in fs && fs[[top, clone, foo, base]] == Dir
    && [top, clone, foo, overlay] in fs && fs[[top, clone, foo, overlay]] == Dir
  }

  /** The local loaders: overlay, then base, then highBase. */
  function LocalOverlay(top: Segment, clone: Segment, foo: Segment, overlay: Segment): FileLoader {
    FileLoader([], [top, clone, foo, overlay], RestrictionRootOnly, None, None, ClonerUsingGitExec)
  }

  function LocalBase(top: Segment, clone: Segment, foo: Segment, base: Segment, overlay: Segment): FileLoader {
    FileLoader(LocalOverlay(top, clone, foo, overlay).Visits(), [top, clone, foo, base], RestrictionRootOnly, None, None, ClonerUsingGitExec)
  }

  lemma LocalOverlayLoader(fs: Nodes, top: Segment, clone: Segment, high: Segment, foo: Segment, base: Segment, overlay: Segment)
    requires OverlayShape(fs, top, clone, high, foo, base, overlay)
    ensures NewLoaderOrDie(RestrictionRootOnly, fs, "/" + top + "/" + clone + "/" + foo + "/" + overlay)
        == Success(LocalOverlay(top, clone, foo, overlay))
    ensures LocalOverlay(top, clone, foo, overlay).Root() == "/" + top + "/" + clone + "/" + foo + "/" + overlay
  {
    Printed4(top, clone, foo, overlay);
    RenderJoin([], [top, clone, foo, overlay]);
    ResolvePlain(fs, [top, clone, foo, overlay]);
  }

  lemma OverlayVisits(top: Segment, clone: Segment, foo: Segment, base: Segment, overlay: Segment)
    requires base != overlay
    ensures var l := LocalOverlay(top, clone, foo, overlay);
      NoClones(l) && Unvisited(l, [top, clone, foo, base])
  {
    var l := LocalOverlay(top, clone, foo, overlay);
    assert l.Visits() == [Visit([top, clone, foo, overlay], None)];
    assert [top, clone, foo, base][3] != [top, clone, foo, overlay][3];
  }

  lemma BaseVisits(top: Segment, clone: Segment, high: Segment, foo: Segment, base: Segment, overlay: Segment)
    requires high != clone
    ensures var l := LocalBase(top, clone, foo, base, overlay);
      NoClones(l) && Unvisited(l, [top, high])
  {
    var l := LocalBase(top, clone, foo, base, overlay);
    assert l.Visits() == [Visit([top, clone, foo, overlay], None), Visit([top, clone, foo, base], None)];
    assert [top, high][1] != [top, clone, foo, base][1] && [top, high][1] != [top, clone, foo, overlay][1];
  }

  /** From a local overlay, the base beside it is reachable. */
  lemma LocalOverlayReachesBase(fs: Nodes, top: Segment, clone: Segment, high: Segment, foo: Segment, base: Segment, overlay: Segment)
    requires OverlayShape(fs, top, clone, high, foo, base, overlay) && base != overlay
    ensures New(LocalOverlay(top, clone, foo, overlay), fs, ".." + "/" + base) == Success(LocalBase(top, clone, foo, base, overlay))
  {
    UpOne([top, clone, foo], overlay, base);
    assert [top, clone, foo] + [overlay] == [top, clone, foo, overlay];
    assert [top, clone, foo] + [base] == [top, clone, foo, base];
    OverlayVisits(top, clone, foo, base, overlay);
    NotRemote(".." + "/" + base);
    NewInto(LocalOverlay(top, clone, foo, overlay), fs, ".." + "/" + base, [top, clone, foo, base]);
  }

  /** From the local base, a base outside the would-be clone is reachable. */
  lemma LocalBaseReachesHigh(fs: Nodes, top: Segment, clone: Segment, high: Segment, foo: Segment, base: Segment, overlay: Segment)
    requires OverlayShape(fs, top, clone, high, foo, base, overlay) && high != clone
    ensures var l := LocalBase(top, clone, foo, base, overlay);
      New(l, fs, ".." + "/" + ".." + "/" + ".." + "/" + high)
        == Success(FileLoader(l.Visits(), [top, high], RestrictionRootOnly, None, None, ClonerUsingGitExec))
  {
    UpThree([top], clone, foo, base, high);
    assert [top] + [clone, foo, base] == [top, clone, foo, base];
    assert [top] + [high] == [top, high];
    BaseVisits(top, clone, high, foo, base, overlay);
    NotRemote(".." + "/" + ".." + "/" + ".." + "/" + high);
    NewInto(LocalBase(top, clone, foo, base, overlay), fs, ".." + "/" + ".." + "/" + ".." + "/" + high, [top, high]);
  }

  /** The repository github.com/org/repo cloned in /top/clone. */
  function OverlayClone(top: Segment, clone: Segment, foo: Segment, overlay: Segment, org: Segment, repo: Segment): Option<Clone> {
    Some(Clone(RepoSpec(RepoOf(org, repo), [foo, overlay]), [top, clone]))
  }

  /** The loader newLoaderAtGitClone gives for github.com/org/repo/foo/overlay cloned in /top/clone. */
  function RemoteOverlay(top: Segment, clone: Segment, foo: Segment, overlay: Segment, org: Segment, repo: Segment): FileLoader {
    FileLoader([], [top, clone, foo, overlay], RestrictionRootOnly,
      OverlayClone(top, clone, foo, overlay, org, repo), None, DoNothingCloner([top, clone]))
  }

  function RemoteBase(top: Segment, clone: Segment, foo: Segment, base: Segment, overlay: Segment, org: Segment, repo: Segment): FileLoader {
    FileLoader(RemoteOverlay(top, clone, foo, overlay, org, repo).Visits(), [top, clone, foo, base], RestrictionRootOnly,
      None, None, DoNothingCloner([top, clone]))
  }

  lemma RemoteOverlayLoader(fs: Nodes, top: Segment, clone: Segment, high: Segment, foo: Segment, base: Segment, overlay: Segment, org: Segment, repo: Segment)
    requires OverlayShape(fs, top, clone, high, foo, base, overlay)
    ensures var spec := RepoSpec(RepoOf(org, repo), [foo, overlay]);
      && ParseRepoSpec(GitHubHost + org + "/" + repo + "/" + foo + "/" + overlay) == Some(spec)
      && NewLoaderAtGitClone(spec, fs, [], DoNothingCloner([top, clone])) == Success(RemoteOverlay(top, clone, foo, overlay, org, repo))
  {
    Url2(org, repo, foo, overlay);
    assert [top, clone] + [foo, overlay] == [top, clone, foo, overlay];
    ResolvePlain(fs, [top, clone, foo, overlay]);
  }

  lemma RemoteOverlayVisits(top: Segment, clone: Segment, foo: Segment, base: Segment, overlay: Segment, org: Segment, repo: Segment)
    ensures var c := OverlayClone(top, clone, foo, overlay, org, repo);
      && RemoteOverlay(top, clone, foo, overlay, org, repo).Visits() == [Visit([top, clone, foo, overlay], c)]
      && RemoteBase(top, clone, foo, base, overlay, org, repo).Visits()
           == [Visit([top, clone, foo, overlay], c), Visit([top, clone, foo, base], None)]
      && ContainingRepo(RemoteOverlay(top, clone, foo, overlay, org, repo).Visits()) == c
      && ContainingRepo(RemoteBase(top, clone, foo, base, overlay, org, repo).Visits()) == c
  {
  }

  /** From the cloned overlay, the base inside the clone is reachable. */
  lemma RemoteOverlayReachesBase(fs: Nodes, top: Segment, clone: Segment, high: Segment, foo: Segment, base: Segment, overlay: Segment, org: Segment, repo: Segment)
    requires OverlayShape(fs, top, clone, high, foo, base, overlay) && base != overlay
    ensures New(RemoteOverlay(top, clone, foo, overlay, org, repo), fs, ".." + "/" + base)
        == Success(RemoteBase(top, clone, foo, base, overlay, org, repo))
  {
    var l1 := RemoteOverlay(top, clone, foo, overlay, org, repo);
    var p := [top, clone, foo, base];
    assert Join(l1.root, ".." + "/" + base) == p by {
      UpOne([top, clone, foo], overlay, base);
      assert [top, clone, foo] + [overlay] == [top, clone, foo, overlay];
      assert [top, clone, foo] + [base] == p;
    }
    assert Unvisited(l1, p) && InOrBelow(p, ContainingRepo(l1.Visits()).value.cloneDir) by {
      RemoteOverlayVisits(top, clone, foo, base, overlay, org, repo);
      assert p[3] != [top, clone, foo, overlay][3];
    }
    NotRemote(".." + "/" + base);
    NewWithin(l1, fs, ".." + "/" + base, p);
  }

  /** From the base inside the clone, a base outside the clone is refused, and the message says where each is. */
  lemma RemoteBaseCannotLeave(fs: Nodes, top: Segment, clone: Segment, high: Segment, foo: Segment, base: Segment, overlay: Segment, org: Segment, repo: Segment)
    requires OverlayShape(fs, top, clone, high, foo, base, overlay) && high != clone
    ensures var r := New(RemoteBase(top, clone, foo, base, overlay, org, repo), fs, ".." + "/" + ".." + "/" + ".." + "/" + high);
      && r == Failure(OutsideClone([top, high], [top, clone]))
      && Contains(Message(r.error), "base '" + Render([top, high]) + "' is outside '" + Render([top, clone]) + "'")
  {
    var l2 := RemoteBase(top, clone, foo, base, overlay, org, repo);
    var path := ".." + "/" + ".." + "/" + ".." + "/" + high;
    var p := [top, high];
    assert Join(l2.root, path) == p by {
      UpThree([top], clone, foo, base, high);
      assert [top] + [clone, foo, base] == [top, clone, foo, base];
      assert [top] + [high] == p;
    }
    assert path != "" && path[0] != 'g';
    NotRemote(path);
    ResolvePlain(fs, p);
    RemoteOverlayVisits(top, clone, foo, base, overlay, org, repo);
    assert !InOrBelow(p, [top, clone]) by {
      assert p[1] != [top, clone][1];
    }
    NewLocal(l2, fs, path);
    OutsideCloneMessage(p, [top, clone]);
  }

  // TestLocalLoaderReferencingGitBase

  lemma LocalReachesGitBase(top: Segment, clone: Segment, foo: Segment, base: Segment, org: Segment, repo: Segment)
    ensures var fs := WithDirs(EmptyFs(), [top, clone, foo, base]);
      var cloner := DoNothingCloner([top, clone]);
      var l1 := NewLoaderAtConfirmedDir(RestrictionRootOnly, [top], [], cloner);
      var spec := RepoSpec(RepoOf(org, repo), [foo, base]);
      && l1.Root() == "/" + top
      && New(l1, fs, GitHubHost + org + "/" + repo + "/" + foo + "/" + base)
           == Success(FileLoader(l1.Visits(), [top, clone, foo, base], RestrictionRootOnly, Some(Clone(spec, [top, clone])), None, cloner))
  {
    var fs := WithDirs(EmptyFs(), [top, clone, foo, base]);
    var cloner := DoNothingCloner([top, clone]);
    var l1 := NewLoaderAtConfirmedDir(RestrictionRootOnly, [top], [], cloner);
    var url := GitHubHost + org + "/" + repo + "/" + foo + "/" + base;
    var spec := RepoSpec(RepoOf(org, repo), [foo, base]);
    assert New(l1, fs, url) == NewLoaderAtGitClone(spec, fs, l1.Visits(), cloner) by {
      Url2(org, repo, foo, base);
      NewRemote(l1, fs, url);
    }
    AllDirsKept(EmptyFs(), [top, clone, foo, base]);
    assert [top, clone] + [foo, base] == [top, clone, foo, base];
    ResolvePlain(fs, [top, clone, foo, base]);
    SlashedCons(top, []);
    assert [top] + [] == [top];
  }

  // TestRepoDirectCycleDetection and TestRepoIndirectCycleDetection

  lemma DirectRepoCycle(cycles: Segment, clone: Segment, foo: Segment, org: Segment, repo: Segment)
    ensures var fs := WithDirs(EmptyFs(), [cycles, clone, foo]);
      var url := GitHubHost + org + "/" + repo + "/" + foo;
      var spec := RepoSpec(RepoOf(org, repo), [foo]);
      var cloner := DoNothingCloner([cycles, clone]);
      var l1 := FileLoader([], [cycles, clone, foo], RestrictionRootOnly, Some(Clone(spec, [cycles, clone])), None, cloner);
      && CanMkdirAll(EmptyFs(), [cycles, clone, foo])
      && ParseRepoSpec(url) == Some(spec)
      && NewLoaderAtGitClone(spec, fs, [], cloner) == Success(l1)
      && New(l1, fs, url).Failure? && New(l1, fs, url).error.RepoCycle?
      && Contains(Message(New(l1, fs, url).error), "cycle detected")
  {
    var fs := WithDirs(EmptyFs(), [cycles, clone, foo]);
    var url := GitHubHost + org + "/" + repo + "/" + foo;
    var spec := RepoSpec(RepoOf(org, repo), [foo]);
    var cloner := DoNothingCloner([cycles, clone]);
    var l1 := FileLoader([], [cycles, clone, foo], RestrictionRootOnly, Some(Clone(spec, [cycles, clone])), None, cloner);
    Url1(org, repo, foo);
    AllDirsKept(EmptyFs(), [cycles, clone, foo]);
    assert [cycles, clone] + [foo] == [cycles, clone, foo];
    ResolvePlain(fs, [cycles, clone, foo]);
    assert Covers(l1.Visits()[0], spec);
    NewRemote(l1, fs, url);
    CycleMessage(New(l1, fs, url).error);
  }

  /** Two references to different repositories name different repositories. */
  lemma RepoOfInjective(org: Segment, repo1: Segment, repo2: Segment)
    requires repo1 != repo2
    ensures RepoOf(org, repo1) != RepoOf(org, repo2)
  {
    var pre := GitHubHost + org + [Separator];
    assert RepoOf(org, repo1) == pre + repo1 && RepoOf(org, repo2) == pre + repo2;
    assert (pre + repo1)[|pre|..] == repo1;
    assert (pre + repo2)[|pre|..] == repo2;
  }

  /** The loader a reference to the whole of github.com/org/repo gives, cloned in /cycles/clone. */
  function WholeRepo(visits: seq<Visit>, cycles: Segment, clone: Segment, org: Segment, repo: Segment): FileLoader {
    FileLoader(visits, [cycles, clone], RestrictionRootOnly,
      Some(Clone(RepoSpec(RepoOf(org, repo), []), [cycles, clone])), None, DoNothingCloner([cycles, clone]))
  }

  /** The three loaders of the indirect cycle test all find the one clone directory. */
  lemma IndirectSetup(cycles: Segment, clone: Segment, org: Segment, repo: Segment)
    ensures var fs := WithDirs(EmptyFs(), [cycles, clone]);
      && ParseRepoSpec(GitHubHost + org + "/" + repo) == Some(RepoSpec(RepoOf(org, repo), []))
      && forall v: seq<Visit> :: NewLoaderAtGitClone(RepoSpec(RepoOf(org, repo), []), fs, v, DoNothingCloner([cycles, clone]))
           == Success(WholeRepo(v, cycles, clone, org, repo))
  {
    var fs := WithDirs(EmptyFs(), [cycles, clone]);
    Url0(org, repo);
    AllDirsKept(EmptyFs(), [cycles, clone]);
    assert [cycles, clone] + [] == [cycles, clone];
    ResolvePlain(fs, [cycles, clone]);
  }

  lemma IndirectFirst(cycles: Segment, clone: Segment, org: Segment, repo1: Segment)
    ensures var fs := WithDirs(EmptyFs(), [cycles, clone]);
      var l0 := NewLoaderAtConfirmedDir(RestrictionRootOnly, [cycles], [], DoNothingCloner([cycles, clone]));
      New(l0, fs, GitHubHost + org + "/" + repo1) == Success(WholeRepo(l0.Visits(), cycles, clone, org, repo1))
  {
    var l0 := NewLoaderAtConfirmedDir(RestrictionRootOnly, [cycles], [], DoNothingCloner([cycles, clone]));
    IndirectSetup(cycles, clone, org, repo1);
    assert l0.Visits() == [Visit([cycles], None)];
    NewRemote(l0, WithDirs(EmptyFs(), [cycles, clone]), GitHubHost + org + "/" + repo1);
  }

  lemma IndirectSecond(cycles: Segment, clone: Segment, org: Segment, repo1: Segment, repo2: Segment)
    requires repo1 != repo2
    ensures var fs := WithDirs(EmptyFs(), [cycles, clone]);
      var l1 := WholeRepo([Visit([cycles], None)], cycles, clone, org, repo1);
      New(l1, fs, GitHubHost + org + "/" + repo2) == Success(WholeRepo(l1.Visits(), cycles, clone, org, repo2))
  {
    var l1 := WholeRepo([Visit([cycles], None)], cycles, clone, org, repo1);
    IndirectSetup(cycles, clone, org, repo2);
    RepoOfInjective(org, repo1, repo2);
    assert l1.Visits() == [Visit([cycles], None), Visit([cycles, clone], l1.repoSpec)];
    NewRemote(l1, WithDirs(EmptyFs(), [cycles, clone]), GitHubHost + org + "/" + repo2);
  }

  lemma IndirectCycle(cycles: Segment, clone: Segment, org: Segment, repo1: Segment, repo2: Segment)
    ensures var fs := WithDirs(EmptyFs(), [cycles, clone]);
      var l1 := WholeRepo([Visit([cycles], None)], cycles, clone, org, repo1);
      var l2 := WholeRepo(l1.Visits(), cycles, clone, org, repo2);
      var r := New(l2, fs, GitHubHost + org + "/" + repo1);
      r.Failure? && r.error.RepoCycle? && Contains(Message(r.error), "cycle detected")
  {
    var fs := WithDirs(EmptyFs(), [cycles, clone]);
    var l1 := WholeRepo([Visit([cycles], None)], cycles, clone, org, repo1);
    var l2 := WholeRepo(l1.Visits(), cycles, clone, org, repo2);
    var p1 := GitHubHost + org + "/" + repo1;
    Url0(org, repo1);
    assert l2.Visits()[1] == Visit([cycles, clone], l1.repoSpec);
    assert Covers(l2.Visits()[1], RepoSpec(RepoOf(org, repo1), []));
    NewRemote(l2, fs, p1);
    CycleMessage(New(l2, fs, p1).error);
  }

  // TestLoaderHTTP

  const HttpDir: Segment := "http"
  const FileYaml: Segment := "file.yaml"
  const HttpTestCases: seq<TestData> := [TestData(HttpDir + "/" + FileYaml, "file content")]

  /** MakeFakeFs of the one local case writes /http/file.yaml. */
  lemma HttpTestFs()
    ensures var fs := FakeNodes(HttpTestCases);
      && WellFormed(fs) && [HttpDir, FileYaml] in fs && fs[[HttpDir, FileYaml]] == File("file content")
  {
    Words2(HttpDir, FileYaml);
    assert Slashed([FileYaml]) == [Separator] + FileYaml by { SlashedCons(FileYaml, []); }
    JoinWords([], HttpDir, [FileYaml]);
    assert FilePath(HttpTestCases[0]) == [HttpDir, FileYaml];
    assert FakeNodes(HttpTestCases) == WithFile(EmptyFs(), [HttpDir, FileYaml], "file content") by {
      assert HttpTestCases[..0] == [];
    }
    WithFileKeeps(EmptyFs(), [HttpDir, FileYaml], "file content");
  }

  /** A local path whose first directory is named like a scheme is still a path, whatever the client. */
  lemma LoadSchemeNamedDir(fs: Nodes, dir: Segment, file: Segment, hc: Option<HttpClient>)
    requires ':' !in dir && ':' !in file
    requires [dir, file] in fs && fs[[dir, file]].File?
    ensures Load(AtTop.(http := hc), fs, dir + "/" + file) == Loaded(Success(fs[[dir, file]].content), [])
  {
    Words2(dir, file);
    LoadsRef(AtTop.(http := hc), fs, dir, [file], [dir, file]);
  }

  lemma LoadHttpDirFile(hc: Option<HttpClient>)
    ensures NewFileLoaderAtRoot(FakeNodes(HttpTestCases)) == Success(AtTop)
    ensures Load(AtTop.(http := hc), FakeNodes(HttpTestCases), HttpDir + "/" + FileYaml) == Loaded(Success("file content"), [])
  {
    HttpTestFs();
    RootLoader(FakeNodes(HttpTestCases));
    LoadSchemeNamedDir(FakeNodes(HttpTestCases), HttpDir, FileYaml, Some(HttpClient(map[])));
    assert ':' !in HttpDir && ':' !in FileYaml;
    LoadSchemeNamedDir(FakeNodes(HttpTestCases), HttpDir, FileYaml, hc);
  }

  /** A client that answers url with status 200 and body. */
  function OneAnswer(url: string, body: string): HttpClient {
    HttpClient(map[url := Response(200, body)])
  }

  /** An http or https URL is fetched, once, through the client, and the body is the content. */
  lemma LoadThroughClient(l: FileLoader, fs: Nodes, url: string, body: string)
    requires StartsWith(url, "http://") || StartsWith(url, "https://")
    ensures Load(l.(http := Some(OneAnswer(url, body))), fs, url) == Loaded(Success(body), [url])
  {
    LoadHttp(l.(http := Some(OneAnswer(url, body))), fs, url);
  }

  lemma LoadExampleUrls(fs: Nodes)
    ensures var u := "http://example.com/resource.yaml";
      Load(AtTop.(http := Some(OneAnswer(u, "http content"))), fs, u) == Loaded(Success("http content"), [u])
    ensures var u := "https://example.com/resource.yaml";
      Load(AtTop.(http := Some(OneAnswer(u, "https content"))), fs, u) == Loaded(Success("https content"), [u])
  {
    var u1 := "http://example.com/resource.yaml";
    var u2 := "https://example.com/resource.yaml";
    assert StartsWith(u1, "http://") by { assert u1[..7] == "http://"; }
    assert StartsWith(u2, "https://") by { assert u2[..8] == "https://"; }
    LoadThroughClient(AtTop, fs, u1, "http content");
    LoadThroughClient(AtTop, fs, u2, "https content");
  }

  /** A URL whose scheme is neither http nor https is an error, and no request is made. */
  lemma LoadOtherScheme(l: FileLoader, fs: Nodes, sc: string, rest: string)
    requires sc != [] && IsLetter(sc[0]) && forall i | 0 <= i < |sc| :: IsSchemeChar(sc[i])
    requires sc != "http" && sc != "https"
    ensures Load(l, fs, sc + "://" + rest) == Loaded(Failure(UnsupportedScheme(sc)), [])
  {
    var u := sc + "://" + rest;
    assert StartsWith(u, sc + "://") by { assert u[..|sc| + 3] == sc + "://"; }
    SchemeIff(u, sc);
  }

  lemma LoadUnsupportedScheme(fs: Nodes, hc: HttpClient)
    ensures Load(AtTop.(http := Some(hc)), fs, "httpsnotreal" + "://" + "example.com/resource.yaml")
      == Loaded(Failure(UnsupportedScheme("httpsnotreal")), [])
  {
    var sc := "httpsnotreal";
    assert forall i | 0 <= i < |sc| :: IsSchemeChar(sc[i]);
    LoadOtherScheme(AtTop.(http := Some(hc)), fs, sc, "example.com/resource.yaml");
  }
}
