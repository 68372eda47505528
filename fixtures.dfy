/**
 * The file systems the loader tests build: MakeFakeFs, writing each test
 * file into a fresh in-memory file system, and the layout
 * commonSetupForLoaderRestrictionTest makes in a temporary directory.
 */
module Fixtures {
  import opened Wrappers
  import opened Paths
  import opened FileSys

  const Foo: Segment := "foo"
  const Project: Segment := "project"
  const Subdir1: Segment := "subdir1"
  const Subdir2: Segment := "subdir2"
  const FileA: Segment := "fileA.yaml"
  const FileB: Segment := "fileB.yaml"
  const FileC: Segment := "fileC.yaml"
  const FileD: Segment := "fileD.yaml"

  datatype TestData = TestData(path: string, expectedContent: string)

  const TestCases: seq<TestData> := [
    TestData(Foo + "/" + Project + "/" + FileA, "fileA content"),
    TestData(Foo + "/" + Project + "/" + Subdir1 + "/" + FileB, "fileB content"),
    TestData(Foo + "/" + Project + "/" + Subdir2 + "/" + FileC, "fileC content"),
    TestData(Foo + "/" + Project + "/" + FileD, "fileD content")
  ]

  /** Where an entry is written: its path read from "/". */
  function FilePath(d: TestData): Path {
    Join([], d.path)
  }

  /** The nodes after writing each entry in turn into an empty file system. */
  function FakeNodes(td: seq<TestData>): Nodes
    decreases |td|
  {
    if td == [] then EmptyFs()
    else WithFile(FakeNodes(td[..|td| - 1]), FilePath(td[|td| - 1]), td[|td| - 1].expectedContent)
  }

  /** MakeFakeFs: a fresh in-memory file system with each entry written in order. */
  method MakeFakeFs(td: seq<TestData>) returns (fs: FileSystem)
    ensures fresh(fs) && fs.Valid()
    ensures fs.nodes == FakeNodes(td)
  {
    fs := new FileSystem();
    for i := 0 to |td|
      invariant fs.Valid()
      invariant fs.nodes == FakeNodes(td[..i])
    {
      assert td[..i + 1][..i] == td[..i];
      var _ := fs.WriteFile(td[i].path, td[i].expectedContent);
    }
    assert td[..|td|] == td;
  }

  /** p is neither in or below nor above the path of any entry. */
  predicate Clear(p: Path, td: seq<TestData>) {
    forall i | 0 <= i < |td| :: !(p <= FilePath(td[i])) && !(FilePath(td[i]) <= p)
  }

  /** No entry is the top directory, and no entry's path is in or below another's. */
  predicate Independent(td: seq<TestData>) {
    forall j | 0 <= j < |td| :: FilePath(td[j]) != [] && Clear(FilePath(td[j]), td[..j])
  }

  /** q is in or above the path of some entry. */
  predicate UnderSome(q: Path, td: seq<TestData>)
    decreases |td|
  {
    td != [] && (q <= FilePath(td[|td| - 1]) || UnderSome(q, td[..|td| - 1]))
  }

  /** q is the path of some entry. */
  predicate IsSome(q: Path, td: seq<TestData>)
    decreases |td|
  {
    td != [] && (q == FilePath(td[|td| - 1]) || IsSome(q, td[..|td| - 1]))
  }

  /** Every entry's path holds a file with its content. */
  predicate FilesHold(td: seq<TestData>, fs: Nodes)
    decreases |td|
  {
    td == [] ||
      (&& FilePath(td[|td| - 1]) in fs
       && fs[FilePath(td[|td| - 1])] == File(td[|td| - 1].expectedContent)
       && FilesHold(td[..|td| - 1], fs))
  }

  /**
   * What writing the entries gives: a well-formed file system holding each
   * entry's content, in which every other node is a directory on the way
   * to an entry.
   */
  ghost predicate Built(td: seq<TestData>, fs: Nodes) {
    && WellFormed(fs)
    && FilesHold(td, fs)
    && (forall q | q in fs && q != [] :: UnderSome(q, td))
    && (forall q | q in fs && fs[q] != Dir :: IsSome(q, td))
  }

  lemma {:induction false} ClearNotUnder(p: Path, td: seq<TestData>)
    requires Clear(p, td)
    ensures !UnderSome(p, td)
    decreases |td|
  {
    if td != [] {
      var prev := td[..|td| - 1];
      assert forall i | 0 <= i < |prev| :: prev[i] == td[i];
      ClearNotUnder(p, prev);
    }
  }

  lemma {:induction false} ClearNotAbove(p: Path, q: Path, td: seq<TestData>)
    requires Clear(p, td) && IsSome(q, td)
    ensures !(q <= p)
    decreases |td|
  {
    var prev := td[..|td| - 1];
    if q != FilePath(td[|td| - 1]) {
      assert forall i | 0 <= i < |prev| :: prev[i] == td[i];
      ClearNotAbove(p, q, prev);
    }
  }

  lemma {:induction false} FilesKept(td: seq<TestData>, fs: Nodes, r: Nodes)
    requires FilesHold(td, fs)
    requires forall q | q in fs :: q in r && r[q] == fs[q]
    ensures FilesHold(td, r)
    decreases |td|
  {
    if td != [] {
      FilesKept(td[..|td| - 1], fs, r);
    }
  }

  /** The file of entry i holds its content. */
  lemma {:induction false} FilesHoldAt(td: seq<TestData>, fs: Nodes, i: int)
    requires FilesHold(td, fs) && 0 <= i < |td|
    ensures FilePath(td[i]) in fs && fs[FilePath(td[i])] == File(td[i].expectedContent)
    decreases |td|
  {
    var prev := td[..|td| - 1];
    if i < |td| - 1 {
      FilesHoldAt(prev, fs, i);
      assert prev[i] == td[i];
    }
  }

  /** When every entry lies below one top directory, so does every node on the way to one. */
  lemma {:induction false} UnderSomeFirst(q: Path, td: seq<TestData>, top: Segment)
    requires UnderSome(q, td) && q != []
    requires forall i | 0 <= i < |td| :: FilePath(td[i]) != [] && FilePath(td[i])[0] == top
    ensures q[0] == top
    decreases |td|
  {
    var prev := td[..|td| - 1];
    if !(q <= FilePath(td[|td| - 1])) {
      assert forall i | 0 <= i < |prev| :: prev[i] == td[i];
      UnderSomeFirst(q, prev, top);
    }
  }

  /** Writing independent entries builds the file system Built describes. */
  lemma {:induction false} FakeNodesHold(td: seq<TestData>)
    requires Independent(td)
    ensures Built(td, FakeNodes(td))
    decreases |td|
  {
    if td != [] {
      var n := |td| - 1;
      var prev := td[..n];
      assert Independent(prev) by {
        forall j | 0 <= j < |prev|
          ensures FilePath(prev[j]) != [] && Clear(FilePath(prev[j]), prev[..j])
        {
          assert prev[j] == td[j];
          assert prev[..j] == td[..j];
        }
      }
      FakeNodesHold(prev);
      var before := FakeNodes(prev);
      var p, c := FilePath(td[n]), td[n].expectedContent;
      assert p != [] && Clear(p, prev);
      assert p !in before by {
        ClearNotUnder(p, prev);
      }
      forall q | q in before && before[q] != Dir
        ensures !(q <= p)
      {
        ClearNotAbove(p, q, prev);
      }
      WithFileKeeps(before, p, c);
      var r := FakeNodes(td);
      assert r == WithFile(before, p, c);
      FilesKept(prev, before, r);
      assert FilesHold(td, r);
      forall q | q in r && q != []
        ensures UnderSome(q, td)
      {
        if q in before {
          assert UnderSome(q, prev);
        } else {
          assert q <= p;
        }
      }
      forall q | q in r && r[q] != Dir
        ensures IsSome(q, td)
      {
        if q != p {
          assert IsSome(q, prev);
        }
      }
    }
  }

  // ---------------------------------------------------------------------
  // The four test files

  /** "a/b" and "a/b/c" written out with separators. */
  lemma Words2(a: Segment, b: Segment)
    ensures a + "/" + b == a + Slashed([b])
  {
    SlashedCons(b, []);
    assert [b] + [] == [b];
  }

  lemma Words3(a: Segment, b: Segment, c: Segment)
    ensures a + "/" + b + "/" + c == a + Slashed([b, c])
  {
    SlashedCons(c, []);
    SlashedCons(b, [c]);
    assert [b] + ([c] + []) == [b, c];
  }

  lemma Words4(a: Segment, b: Segment, c: Segment, d: Segment)
    ensures a + "/" + b + "/" + c + "/" + d == a + Slashed([b, c, d])
  {
    SlashedCons(d, []);
    SlashedCons(c, [d]);
    SlashedCons(b, [c, d]);
    assert [b] + ([c] + ([d] + [])) == [b, c, d];
  }

  lemma PathA()
    ensures FilePath(TestCases[0]) == [Foo, Project, FileA]
  {
    Words3(Foo, Project, FileA);
    JoinWords([], Foo, [Project, FileA]);
  }

  lemma PathB()
    ensures FilePath(TestCases[1]) == [Foo, Project, Subdir1, FileB]
  {
    Words4(Foo, Project, Subdir1, FileB);
    JoinWords([], Foo, [Project, Subdir1, FileB]);
  }

  lemma PathC()
    ensures FilePath(TestCases[2]) == [Foo, Project, Subdir2, FileC]
  {
    Words4(Foo, Project, Subdir2, FileC);
    JoinWords([], Foo, [Project, Subdir2, FileC]);
  }

  lemma PathD()
    ensures FilePath(TestCases[3]) == [Foo, Project, FileD]
  {
    Words3(Foo, Project, FileD);
    JoinWords([], Foo, [Project, FileD]);
  }

  /** Paths that differ in one component are neither in or below the other. */
  lemma DifferAt(p: Path, q: Path, k: int)
    requires 0 <= k < |p| && k < |q| && p[k] != q[k]
    ensures !(p <= q) && !(q <= p)
  {
  }

  lemma TestCasesIndependent()
    ensures Independent(TestCases)
  {
    PathA();
    PathB();
    PathC();
    PathD();
    var a, b, c, d := FilePath(TestCases[0]), FilePath(TestCases[1]), FilePath(TestCases[2]), FilePath(TestCases[3]);
    DifferAt(a, b, 2);
    DifferAt(a, c, 2);
    DifferAt(a, d, 2);
    DifferAt(b, c, 2);
    DifferAt(b, d, 2);
    DifferAt(c, d, 2);
    forall j | 0 <= j < |TestCases|
      ensures FilePath(TestCases[j]) != [] && Clear(FilePath(TestCases[j]), TestCases[..j])
    {
      assert forall i | 0 <= i < j :: TestCases[..j][i] == TestCases[i];
    }
  }

  /** MakeFakeFs(testCases) builds what Built describes. */
  lemma TestFsBuilt()
    ensures Built(TestCases, FakeNodes(TestCases))
  {
    TestCasesIndependent();
    FakeNodesHold(TestCases);
  }

  /** The four files of MakeFakeFs(testCases), with their contents. */
  lemma TestFsFiles()
    ensures var fs := FakeNodes(TestCases);
      && WellFormed(fs)
      && [Foo, Project, FileA] in fs && fs[[Foo, Project, FileA]] == File("fileA content")
      && [Foo, Project, Subdir1, FileB] in fs && fs[[Foo, Project, Subdir1, FileB]] == File("fileB content")
      && [Foo, Project, Subdir2, FileC] in fs && fs[[Foo, Project, Subdir2, FileC]] == File("fileC content")
      && [Foo, Project, FileD] in fs && fs[[Foo, Project, FileD]] == File("fileD content")
  {
    var fs := FakeNodes(TestCases);
    TestFsBuilt();
    PathA();
    PathB();
    PathC();
    PathD();
    FilesHoldAt(TestCases, fs, 0);
    FilesHoldAt(TestCases, fs, 1);
    FilesHoldAt(TestCases, fs, 2);
    FilesHoldAt(TestCases, fs, 3);
  }

  /** Nothing of MakeFakeFs(testCases) lies outside "/foo". */
  lemma TestFsUnderFoo()
    ensures var fs := FakeNodes(TestCases);
      forall q | q in fs && q != [] :: q[0] == Foo
  {
    var fs := FakeNodes(TestCases);
    TestFsBuilt();
    PathA();
    PathB();
    PathC();
    PathD();
    assert forall i | 0 <= i < |TestCases| :: FilePath(TestCases[i]) != [] && FilePath(TestCases[i])[0] == Foo by {
      forall i | 0 <= i < |TestCases|
        ensures FilePath(TestCases[i]) != [] && FilePath(TestCases[i])[0] == Foo
      {
        assert i == 0 || i == 1 || i == 2 || i == 3;
      }
    }
    forall q | q in fs && q != []
      ensures q[0] == Foo
    {
      UnderSomeFirst(q, TestCases, Foo);
    }
  }

  /** The directories of MakeFakeFs(testCases). */
  lemma TestFsDirs()
    ensures var fs := FakeNodes(TestCases);
      && [Foo, Project] in fs && fs[[Foo, Project]] == Dir
      && [Foo, Project, Subdir1] in fs && fs[[Foo, Project, Subdir1]] == Dir
      && [Foo, Project, Subdir2] in fs && fs[[Foo, Project, Subdir2]] == Dir
  {
    var fs := FakeNodes(TestCases);
    TestFsFiles();
    AncestorsAreDirs(fs, [Foo, Project, FileA], [Foo, Project]);
    AncestorsAreDirs(fs, [Foo, Project, Subdir1, FileB], [Foo, Project, Subdir1]);
    AncestorsAreDirs(fs, [Foo, Project, Subdir2, FileC], [Foo, Project, Subdir2]);
  }

  /** What the loader tests rely on about MakeFakeFs(testCases). */
  predicate TestFsShape(fs: Nodes) {
    && WellFormed(fs)
    && [Foo, Project, FileA] in fs && fs[[Foo, Project, FileA]] == File("fileA content")
    && [Foo, Project, Subdir1, FileB] in fs && fs[[Foo, Project, Subdir1, FileB]] == File("fileB content")
    && [Foo, Project, Subdir2, FileC] in fs && fs[[Foo, Project, Subdir2, FileC]] == File("fileC content")
    && [Foo, Project, FileD] in fs && fs[[Foo, Project, FileD]] == File("fileD content")
    && [Foo, Project] in fs && fs[[Foo, Project]] == Dir
    && [Foo, Project, Subdir1] in fs && fs[[Foo, Project, Subdir1]] == Dir
    && [Foo, Project, Subdir2] in fs && fs[[Foo, Project, Subdir2]] == Dir
    && forall q | q in fs && q != [] :: q[0] == Foo
  }

  lemma TestFsShapeHolds()
    ensures TestFsShape(FakeNodes(TestCases))
  {
    TestFsFiles();
    TestFsDirs();
    TestFsUnderFoo();
  }

  // ---------------------------------------------------------------------
  // The restriction tests' layout

  const BaseName: Segment := "base"
  const OkayData: Segment := "okayData"
  const ExteriorData: Segment := "exteriorData"
  const SymLinkToOkayData: Segment := "symLinkToOkayData"
  const SymLinkToExteriorData: Segment := "symLinkToExteriorData"

  const ContentOk: string := "hi there, i'm OK data"
  const ContentExteriorData: string := "i am data from outside the root"

  /**
   * dir/base holding okayData, a link to it and a link to dir/exteriorData;
   * both links are written with absolute targets.
   */
  function RestrictionLayout(fs: Nodes, dir: Path): Nodes {
    var base: Path := dir + [BaseName];
    var s1 := WithDir(fs, base);
    var s2 := WithFile(s1, base + [OkayData], ContentOk);
    var s3 := WithFile(s2, dir + [ExteriorData], ContentExteriorData);
    var s4 := WithSymlink(s3, Render(base + [OkayData]), base + [SymLinkToOkayData]);
    WithSymlink(s4, Render(dir + [ExteriorData]), base + [SymLinkToExteriorData])
  }

  /** commonSetupForLoaderRestrictionTest: builds the layout inside dir, the existing directory t.TempDir() made. */
  method CommonSetup(fs: FileSystem, dir: Path)
    requires fs.Valid() && dir in fs.nodes && fs.nodes[dir] == Dir
    modifies fs
    ensures fs.Valid()
    ensures fs.nodes == RestrictionLayout(old(fs.nodes), dir)
  {
    var base: Path := dir + [BaseName];
    RenderJoin([], base);
    RenderJoin([], base + [OkayData]);
    RenderJoin([], dir + [ExteriorData]);
    RenderJoin([], base + [SymLinkToOkayData]);
    RenderJoin([], base + [SymLinkToExteriorData]);
    var _ := fs.Mkdir(Render(base));
    var _ := fs.WriteFile(Render(base + [OkayData]), ContentOk);
    var _ := fs.WriteFile(Render(dir + [ExteriorData]), ContentExteriorData);
    var _ := fs.Symlink(Render(base + [OkayData]), Render(base + [SymLinkToOkayData]));
    var _ := fs.Symlink(Render(dir + [ExteriorData]), Render(base + [SymLinkToExteriorData]));
  }

  /** t.TempDir(): an existing, empty directory. */
  predicate FreshDir(fs: Nodes, dir: Path) {
    && WellFormed(fs) && dir in fs && fs[dir] == Dir
    && forall q | q in fs :: !(dir <= q && dir != q)
  }

  /** The five paths of the layout are distinct, and where each one sits. */
  lemma LayoutPaths(dir: Path)
    ensures var base := dir + [BaseName];
      var okay, ext := base + [OkayData], dir + [ExteriorData];
      var link1, link2 := base + [SymLinkToOkayData], base + [SymLinkToExteriorData];
      && Parent(base) == dir && Parent(ext) == dir
      && Parent(okay) == base && Parent(link1) == base && Parent(link2) == base
      && okay != base && ext != base && ext != okay
      && link1 != base && link1 != okay && link1 != ext
      && link2 != base && link2 != okay && link2 != ext && link2 != link1
  {
    var base := dir + [BaseName];
    assert base[|dir|] == BaseName;
    assert (dir + [ExteriorData])[|dir|] == ExteriorData;
    assert (base + [OkayData])[|base|] == OkayData;
    assert (base + [SymLinkToOkayData])[|base|] == SymLinkToOkayData;
    assert (base + [SymLinkToExteriorData])[|base|] == SymLinkToExteriorData;
  }

  /** The first three steps of the layout: the base directory and the two files. */
  lemma LayoutFiles(fs: Nodes, dir: Path)
    requires FreshDir(fs, dir)
    ensures var base := dir + [BaseName];
      var s3 := fs[base := Dir][base + [OkayData] := File(ContentOk)][dir + [ExteriorData] := File(ContentExteriorData)];
      && WellFormed(s3)
      && WithFile(WithFile(WithDir(fs, base), base + [OkayData], ContentOk), dir + [ExteriorData], ContentExteriorData) == s3
  {
    var base: Path := dir + [BaseName];
    var okay: Path, ext: Path := base + [OkayData], dir + [ExteriorData];
    LayoutPaths(dir);
    assert base !in fs && okay !in fs && ext !in fs;
    var s1 := fs[base := Dir];
    AddNode(fs, base, Dir);
    var s2 := s1[okay := File(ContentOk)];
    AddNode(s1, okay, File(ContentOk));
    AddNode(s2, ext, File(ContentExteriorData));
  }

  /** The layout adds exactly its five nodes to the fresh directory. */
  lemma RestrictionLayoutHolds(fs: Nodes, dir: Path)
    requires FreshDir(fs, dir)
    ensures var base := dir + [BaseName];
      var r := RestrictionLayout(fs, dir);
      && WellFormed(r)
      && r == fs[base := Dir]
               [base + [OkayData] := File(ContentOk)]
               [dir + [ExteriorData] := File(ContentExteriorData)]
               [base + [SymLinkToOkayData] := Symlink(Render(base + [OkayData]))]
               [base + [SymLinkToExteriorData] := Symlink(Render(dir + [ExteriorData]))]
  {
    var base: Path := dir + [BaseName];
    var okay: Path, ext: Path := base + [OkayData], dir + [ExteriorData];
    var link1: Path, link2: Path := base + [SymLinkToOkayData], base + [SymLinkToExteriorData];
    LayoutPaths(dir);
    LayoutFiles(fs, dir);
    assert link1 !in fs && link2 !in fs;
    var s3 := fs[base := Dir][okay := File(ContentOk)][ext := File(ContentExteriorData)];
    var s4 := s3[link1 := Symlink(Render(okay))];
    AddNode(s3, link1, Symlink(Render(okay)));
    AddNode(s4, link2, Symlink(Render(ext)));
  }

  /** What the restriction tests rely on about the layout inside dir. */
  predicate LayoutShape(fs: Nodes, dir: Path) {
    var base := dir + [BaseName];
    var okay, ext := base + [OkayData], dir + [ExteriorData];
    && WellFormed(fs) && dir in fs && fs[dir] == Dir && base in fs && fs[base] == Dir
    && okay in fs && fs[okay] == File(ContentOk)
    && ext in fs && fs[ext] == File(ContentExteriorData)
    && base + [SymLinkToOkayData] in fs && fs[base + [SymLinkToOkayData]] == Symlink(Render(okay))
    && base + [SymLinkToExteriorData] in fs && fs[base + [SymLinkToExteriorData]] == Symlink(Render(ext))
  }

  lemma LayoutShapeHolds(fs: Nodes, dir: Path)
    requires FreshDir(fs, dir)
    ensures LayoutShape(RestrictionLayout(fs, dir), dir)
  {
    RestrictionLayoutHolds(fs, dir);
    LayoutPaths(dir);
    assert dir != dir + [BaseName] && dir != dir + [ExteriorData];
    assert dir != dir + [BaseName] + [OkayData] && dir != dir + [BaseName] + [SymLinkToOkayData];
    assert dir != dir + [BaseName] + [SymLinkToExteriorData];
  }
}
