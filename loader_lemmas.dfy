/**
 * What the loader guarantees: when New and Load succeed and what they
 * return, the invariants every chain of loaders keeps (no root revisited,
 * no repository reference revisited, nothing reached from a clone leaves
 * it), and the confinement RestrictionRootOnly gives.
 */
module LoaderLemmas {
  import opened Wrappers
  import opened Paths
  import opened FileSys
  import opened Git
  import opened Loader

  // ---------------------------------------------------------------------
  // First loaders

  /** NewFileLoaderAtRoot: a loader at "/" with an empty chain, no clone and no HTTP client. */
  lemma RootLoader(fs: Nodes)
    requires WellFormed(fs)
    ensures NewFileLoaderAtRoot(fs) == Success(FileLoader([], [], RestrictionRootOnly, None, None, ClonerUsingGitExec))
    ensures NewFileLoaderAtRoot(fs).value.Root() == "/"
  {
    JoinSlash([]);
    ResolvePlain(fs, []);
  }

  /** newLoaderOrDie succeeds exactly at a path naming a directory, and roots the loader at its real path. */
  lemma LoaderOrDieAt(lr: LoadRestriction, fs: Nodes, path: string)
    ensures var t := Resolve(fs, Join([], path));
      NewLoaderOrDie(lr, fs, path).Success? <==> path != "" && t.Some? && fs[t.value] == Dir
    ensures NewLoaderOrDie(lr, fs, path).Success? ==>
      NewLoaderOrDie(lr, fs, path).value
        == FileLoader([], Resolve(fs, Join([], path)).value, lr, None, None, ClonerUsingGitExec)
  {
  }

  /**
   * newLoaderAtGitClone: with a cloner reporting the clone in dir, the loader
   * is rooted at the real directory dir + pathInRepo, reads only below it,
   * and records the clone; git itself is never run.
   */
  lemma GitCloneAt(spec: RepoSpec, fs: Nodes, referrers: seq<Visit>, cloner: Cloner)
    ensures cloner.ClonerUsingGitExec? ==> NewLoaderAtGitClone(spec, fs, referrers, cloner) == Failure(CloneFailed(spec))
    ensures cloner.DoNothingCloner? ==>
      var t := Resolve(fs, cloner.dir + spec.pathInRepo);
      && (NewLoaderAtGitClone(spec, fs, referrers, cloner).Success? <==> t.Some? && fs[t.value] == Dir)
      && (NewLoaderAtGitClone(spec, fs, referrers, cloner).Success? ==>
            NewLoaderAtGitClone(spec, fs, referrers, cloner).value
              == FileLoader(referrers, t.value, RestrictionRootOnly, Some(Clone(spec, cloner.dir)), None, cloner))
  {
  }

  // ---------------------------------------------------------------------
  // New

  /**
   * New of a local path: it succeeds exactly when the path resolves to a
   * directory that stays inside the clone the chain came from (if any)
   * and that is neither a visited root nor above one; the child is rooted
   * there, keeps the restriction and the cloner, and extends the chain.
   */
  lemma NewLocal(l: FileLoader, fs: Nodes, path: string)
    requires path != "" && ParseRepoSpec(path).None?
    ensures var p := Join(l.root, path);
      var t := Resolve(fs, p);
      && (t.None? ==> New(l, fs, path) == Failure(NoSuchPath(p)))
      && (t.Some? && fs[t.value] != Dir ==> New(l, fs, path) == Failure(NotADirectory(p)))
    ensures var t := Resolve(fs, Join(l.root, path));
      var c := ContainingRepo(l.Visits());
      && (t.Some? && fs[t.value] == Dir && c.Some? && !InOrBelow(t.value, c.value.cloneDir) ==>
            New(l, fs, path) == Failure(OutsideClone(t.value, c.value.cloneDir)))
      && (New(l, fs, path).Success? <==>
            && t.Some? && fs[t.value] == Dir
            && (c.Some? ==> InOrBelow(t.value, c.value.cloneDir))
            && forall i | 0 <= i < |l.Visits()| :: !InOrBelow(l.Visits()[i].root, t.value))
      && (New(l, fs, path).Success? ==>
            New(l, fs, path).value == FileLoader(l.Visits(), t.value, l.loadRestrictor, None, None, l.cloner))
  {
    var t := Resolve(fs, Join(l.root, path));
    match ContainingRepo(l.Visits())
    case None =>
    case Some(c) =>
      if t.Some? {
        HasPrefixIsInOrBelow(t.value, c.cloneDir);
      }
  }

  /** New never returns to a visited root, nor to a directory above one. */
  lemma NewAtOrAboveVisitedFails(l: FileLoader, fs: Nodes, path: string, i: int)
    requires path != "" && ParseRepoSpec(path).None?
    requires 0 <= i < |l.Visits()|
    requires Resolve(fs, Join(l.root, path)).Some?
    requires InOrBelow(l.Visits()[i].root, Resolve(fs, Join(l.root, path)).value)
    ensures New(l, fs, path).Failure?
    ensures New(l, fs, path).error.RootCycle? || New(l, fs, path).error.OutsideClone?
         || New(l, fs, path).error.NotADirectory?
  {
    NewLocal(l, fs, path);
  }

  /** "." names the root itself. */
  lemma NewSelfFails(l: FileLoader, fs: Nodes)
    requires l.root in fs && fs[l.root] == Dir
    ensures New(l, fs, ".").Failure?
  {
    JoinDot(l.root);
    ResolvePlain(fs, l.root);
    assert l.Visits()[|l.referrers|].root == l.root;
    NewAtOrAboveVisitedFails(l, fs, ".", |l.referrers|);
  }

  /** ".." names the directory above the root. */
  lemma NewParentFails(l: FileLoader, fs: Nodes)
    requires WellFormed(fs) && l.root in fs
    ensures New(l, fs, "..").Failure?
  {
    JoinDotDot(l.root);
    if l.root != [] {
      assert Parent(l.root) in fs && fs[Parent(l.root)] == Dir;
    }
    ResolvePlain(fs, Parent(l.root));
    assert l.Visits()[|l.referrers|].root == l.root;
    NewAtOrAboveVisitedFails(l, fs, "..", |l.referrers|);
  }

  /** "/" names the top of every root. */
  lemma NewTopFails(l: FileLoader, fs: Nodes)
    requires WellFormed(fs)
    ensures New(l, fs, "/").Failure?
  {
    JoinSlash(l.root);
    ResolvePlain(fs, []);
    assert l.Visits()[|l.referrers|].root == l.root;
    NewAtOrAboveVisitedFails(l, fs, "/", |l.referrers|);
  }

  /**
   * New of a remote reference: it fails with a repository cycle exactly
   * when a clone of the same repository at or below the referenced
   * directory is already in the chain; otherwise it makes a git-clone
   * loader, with the chain extended, through the loader's own cloner.
   */
  lemma NewRemote(l: FileLoader, fs: Nodes, path: string)
    requires path != "" && ParseRepoSpec(path).Some?
    ensures var spec := ParseRepoSpec(path).value;
      && ((New(l, fs, path).Failure? && New(l, fs, path).error.RepoCycle?) <==>
            exists i | 0 <= i < |l.Visits()| :: Covers(l.Visits()[i], spec))
      && ((forall i | 0 <= i < |l.Visits()| :: !Covers(l.Visits()[i], spec)) ==>
            New(l, fs, path) == NewLoaderAtGitClone(spec, fs, l.Visits(), l.cloner))
  {
    var spec := ParseRepoSpec(path).value;
    match RepoCycleWith(l.Visits(), spec)
    case Some(_) =>
    case None =>
      match l.cloner
      case ClonerUsingGitExec =>
      case DoNothingCloner(dir) =>
        var clone := Clone(spec, dir);
        match DemandDirectoryRoot(fs, clone.AbsPath())
        case Failure(e) =>
          assert !e.RepoCycle?;
        case Success(_) =>
  }

  // ---------------------------------------------------------------------
  // What every chain of loaders keeps

  /** No local loader's root is equal to or above the root of a loader before it. */
  ghost predicate LocalRootsAcyclic(visits: seq<Visit>) {
    forall i, j | 0 <= i < j < |visits| && visits[j].repo.None? :: !InOrBelow(visits[i].root, visits[j].root)
  }

  /** No git-clone loader's reference covers a clone made before it. */
  ghost predicate ReposAcyclic(visits: seq<Visit>) {
    forall i, j | 0 <= i < j < |visits| && visits[j].repo.Some? :: !Covers(visits[i], visits[j].repo.value.spec)
  }

  /** Every local loader reached through a clone stays inside that clone's directory. */
  ghost predicate ClonesConfine(visits: seq<Visit>) {
    forall j | 0 <= j < |visits| && visits[j].repo.None? && ContainingRepo(visits[..j]).Some? ::
      InOrBelow(visits[j].root, ContainingRepo(visits[..j]).value.cloneDir)
  }

  ghost predicate ChainSound(l: FileLoader) {
    LocalRootsAcyclic(l.Visits()) && ReposAcyclic(l.Visits()) && ClonesConfine(l.Visits())
  }

  /** The clone a chain extended by one visit came from. */
  lemma ContainingRepoSnoc(visits: seq<Visit>, v: Visit)
    ensures ContainingRepo(visits + [v]) == if v.repo.Some? then v.repo else ContainingRepo(visits)
  {
    assert (visits + [v])[..|visits|] == visits;
  }

  /** A first loader, local or from a clone, has a sound chain. */
  lemma FirstLoadersSound(lr: LoadRestriction, root: Path, cloner: Cloner, spec: RepoSpec, fs: Nodes)
    ensures ChainSound(NewLoaderAtConfirmedDir(lr, root, [], cloner))
    ensures NewLoaderAtGitClone(spec, fs, [], cloner).Success? ==> ChainSound(NewLoaderAtGitClone(spec, fs, [], cloner).value)
  {
    var l := NewLoaderAtConfirmedDir(lr, root, [], cloner);
    assert l.Visits()[..0] == [];
    if NewLoaderAtGitClone(spec, fs, [], cloner).Success? {
      var g := NewLoaderAtGitClone(spec, fs, [], cloner).value;
      assert g.Visits()[..0] == [];
    }
  }

  /** New keeps every chain sound: no root or reference revisited, clones never left. */
  lemma {:induction false} NewKeepsChainSound(l: FileLoader, fs: Nodes, path: string)
    requires ChainSound(l)
    requires New(l, fs, path).Success?
    ensures ChainSound(New(l, fs, path).value)
  {
    var c := New(l, fs, path).value;
    var vs := l.Visits();
    assert path != "";
    assert c.referrers == vs;
    var v := Visit(c.root, c.repoSpec);
    assert c.Visits() == vs + [v];
    assert forall j | 0 <= j < |vs| :: (vs + [v])[j] == vs[j];
    assert forall j | 0 <= j <= |vs| :: (vs + [v])[..j] == vs[..j];
    if ParseRepoSpec(path).Some? {
      NewRemote(l, fs, path);
      var spec := ParseRepoSpec(path).value;
      GitCloneAt(spec, fs, vs, l.cloner);
      assert c.repoSpec == Some(Clone(spec, l.cloner.dir));
    } else {
      NewLocal(l, fs, path);
      assert c.repoSpec.None?;
      assert (vs + [v])[..|vs|] == vs;
    }
  }

  /** A local child stays within the clone its parent's chain came from; a git-clone child's clone is its own. */
  lemma NewKeepsCloneBoundary(l: FileLoader, fs: Nodes, path: string)
    requires New(l, fs, path).Success?
    ensures var c := New(l, fs, path).value;
      && (c.repoSpec.None? ==> ContainingRepo(c.Visits()) == ContainingRepo(l.Visits()))
      && (c.repoSpec.Some? ==> ContainingRepo(c.Visits()) == c.repoSpec)
      && (c.repoSpec.None? && ContainingRepo(l.Visits()).Some? ==>
            InOrBelow(c.root, ContainingRepo(l.Visits()).value.cloneDir))
  {
    var c := New(l, fs, path).value;
    ContainingRepoSnoc(l.Visits(), Visit(c.root, c.repoSpec));
    if ParseRepoSpec(path).None? {
      NewLocal(l, fs, path);
    } else {
      NewRemote(l, fs, path);
      GitCloneAt(ParseRepoSpec(path).value, fs, l.Visits(), l.cloner);
    }
  }

  // ---------------------------------------------------------------------
  // Load

  /**
   * Load under RestrictionRootOnly of a local path: it succeeds exactly when
   * the path resolves to a file whose directory is in or below the root,
   * and returns that file's content; a file outside fails "not in or below".
   */
  lemma LoadRootOnly(l: FileLoader, fs: Nodes, path: string)
    requires l.loadRestrictor == RestrictionRootOnly && Classify(path) == LocalRef
    ensures var p := Join(l.root, path);
      var t := Resolve(fs, p);
      var r := Load(l, fs, path);
      && r.requests == []
      && (r.content.Success? <==> t.Some? && fs[t.value].File? && InOrBelow(Parent(t.value), l.root))
      && (r.content.Success? ==> r.content.value == fs[t.value].content)
      && (t.Some? && fs[t.value].File? && !InOrBelow(Parent(t.value), l.root) ==>
            r.content == Failure(NotInOrBelow(p, l.root)))
  {
    var t := Resolve(fs, Join(l.root, path));
    if t.Some? {
      HasPrefixIsInOrBelow(Parent(t.value), l.root);
      ResolvePlain(fs, t.value);
    }
  }

  /** Load under RestrictionNone of a local path: anything resolving to a file is read. */
  lemma LoadUnrestricted(l: FileLoader, fs: Nodes, path: string)
    requires l.loadRestrictor == RestrictionNone && Classify(path) == LocalRef
    ensures var t := Resolve(fs, Join(l.root, path));
      var r := Load(l, fs, path);
      && r.requests == []
      && (r.content.Success? <==> t.Some? && fs[t.value].File?)
      && (r.content.Success? ==> r.content.value == fs[t.value].content)
  {
  }

  /** RestrictionRootOnly only ever refuses: what it reads, RestrictionNone reads the same. */
  lemma RootOnlyWithinNone(l: FileLoader, fs: Nodes, path: string)
    requires l.loadRestrictor == RestrictionRootOnly
    requires Load(l, fs, path).content.Success?
    ensures Load(l.(loadRestrictor := RestrictionNone), fs, path) == Load(l, fs, path)
  {
    if Classify(path) == LocalRef {
      LoadRootOnly(l, fs, path);
      LoadUnrestricted(l.(loadRestrictor := RestrictionNone), fs, path);
    }
  }

  /**
   * Load of an http or https URL: without a client nothing is asked and the
   * load fails; with one, exactly that URL is asked for once, and only a
   * 200 response gives its body.
   */
  lemma LoadHttp(l: FileLoader, fs: Nodes, url: string)
    requires StartsWith(url, "http://") || StartsWith(url, "https://")
    ensures l.http.None? ==> Load(l, fs, url) == Loaded(Failure(NoHttpClient(url)), [])
    ensures l.http.Some? ==>
      var rs := l.http.value.responses;
      && Load(l, fs, url).requests == [url]
      && (Load(l, fs, url).content.Success? <==> url in rs && rs[url].statusCode == 200)
      && (Load(l, fs, url).content.Success? ==> Load(l, fs, url).content.value == rs[url].body)
  {
    ClassifyHttp(url);
  }

  /** The HTTP client matters only for http and https URLs. */
  lemma ClientOnlyForUrls(l: FileLoader, fs: Nodes, path: string, hc: Option<HttpClient>)
    requires !StartsWith(path, "http://") && !StartsWith(path, "https://")
    ensures Load(l.(http := hc), fs, path) == Load(l, fs, path)
    ensures Load(l, fs, path).requests == []
  {
    ClassifyHttp(path);
  }

  /** Every URL has a colon, after its scheme. */
  lemma SchemeHasColon(s: string)
    ensures Scheme(s).Some? ==> ':' in s
  {
    var n := SchemeLength(s);
    if Scheme(s).Some? {
      assert s[n..][0] == ':';
      assert s[n] in s;
    }
  }

  /** A reference without a colon is a local path. */
  lemma NoColonIsLocal(s: string)
    requires ':' !in s
    ensures Classify(s) == LocalRef
  {
    SchemeHasColon(s);
  }
}
