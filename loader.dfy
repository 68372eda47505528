/**
 * The file loader: a root directory, a restriction on what it may read,
 * the chain of loaders that led to it, the clone it was made from (if
 * any), an HTTP client and a cloner. Root, New and Load are functions of
 * the loader and a snapshot of the file system; a loader never changes,
 * New returns a fresh one whose chain is one visit longer.
 */
module Loader {
  import opened Wrappers
  import opened Paths
  import opened FileSys
  import opened Git

  /** What Load may read: only files in or below the root, or anything. */
  datatype LoadRestriction = RestrictionRootOnly | RestrictionNone

  datatype Response = Response(statusCode: int, body: string)

  /** An HTTP client: the response it gives to a GET of each URL; any other URL fails in transport. */
  datatype HttpClient = HttpClient(responses: map<string, Response>)

  /** A loader of the referrer chain: its root and the clone it was made from, if any. */
  datatype Visit = Visit(root: Path, repo: Option<Clone>)

  datatype FileLoader = FileLoader(
    referrers: seq<Visit>,
    root: Path,
    loadRestrictor: LoadRestriction,
    repoSpec: Option<Clone>,
    http: Option<HttpClient>,
    cloner: Cloner)
  {
    /** Root(): the root as a printed absolute path, which names the root again. */
    function Root(): (s: string)
      ensures s != [] && s[0] == Separator
      ensures Join([], s) == root
    {
      RenderJoin([], root);
      Render(root)
    }

    /** Every loader of the chain, this one last. */
    function Visits(): seq<Visit> {
      referrers + [Visit(root, repoSpec)]
    }
  }

  datatype LoaderError =
    | EmptyRoot
    | NoSuchPath(path: Path)
    | NotADirectory(path: Path)
    | NotAFile(path: Path)
    | ReadFailed(path: Path)
    | NotInOrBelow(file: Path, root: Path)
    | RootCycle(candidate: Path, visited: Path)
    | OutsideClone(base: Path, cloneDir: Path)
    | RepoCycle(requested: RepoSpec, previous: RepoSpec)
    | CloneFailed(spec: RepoSpec)
    | UnsupportedScheme(scheme: string)
    | NoHttpClient(url: string)
    | TransportFailed(url: string)
    | BadStatus(url: string, statusCode: int)

  /** The text of an error. */
  function Message(e: LoaderError): string {
    match e
    case EmptyRoot => "new root cannot be empty"
    case NoSuchPath(p) => "'" + Render(p) + "' doesn't exist"
    case NotADirectory(p) => "'" + Render(p) + "' must be a directory to be a root"
    case NotAFile(p) => "'" + Render(p) + "' must resolve to a file"
    case ReadFailed(p) => "cannot read '" + Render(p) + "'"
    case NotInOrBelow(f, r) => "security; file '" + Render(f) + "' is not in or below '" + Render(r) + "'"
    case RootCycle(c, v) => "cycle detected: candidate root '" + Render(c) + "' contains visited root '" + Render(v) + "'"
    case OutsideClone(b, c) =>
      "security; bases in kustomizations found in cloned git repos must be within the repo, but base '"
      + Render(b) + "' is outside '" + Render(c) + "'"
    case RepoCycle(n, p) => "cycle detected: URI '" + n.Raw() + "' referenced by previous URI '" + p.Raw() + "'"
    case CloneFailed(s) => "failed to clone '" + s.Raw() + "'"
    case UnsupportedScheme(sc) => "unsupported scheme '" + sc + "'"
    case NoHttpClient(u) => "no http client to get '" + u + "'"
    case TransportFailed(u) => "cannot get '" + u + "'"
    case BadStatus(u, _) => "unexpected status getting '" + u + "'"
  }

  /** t occurs in s at index i. */
  predicate OccursAt(s: string, t: string, i: int) {
    0 <= i <= |s| - |t| && s[i..i + |t|] == t
  }

  /** strings.Contains(s, t). */
  ghost predicate Contains(s: string, t: string) {
    exists i :: OccursAt(s, t, i)
  }

  lemma ContainsLeft(a: string, b: string, t: string)
    requires Contains(a, t)
    ensures Contains(a + b, t)
  {
    var i :| OccursAt(a, t, i);
    assert (a + b)[i..i + |t|] == a[i..i + |t|];
    assert OccursAt(a + b, t, i);
  }

  lemma ContainsRight(a: string, b: string, t: string)
    requires Contains(b, t)
    ensures Contains(a + b, t)
  {
    var i :| OccursAt(b, t, i);
    assert (a + b)[|a| + i..|a| + i + |t|] == b[i..i + |t|];
    assert OccursAt(a + b, t, |a| + i);
  }

  lemma ContainsItself(t: string)
    ensures Contains(t, t)
  {
    assert t[0..|t|] == t;
    assert OccursAt(t, t, 0);
  }

  /** Both kinds of cycle say so. */
  lemma CycleMessage(e: LoaderError)
    requires e.RootCycle? || e.RepoCycle?
    ensures Contains(Message(e), "cycle detected")
  {
    var t := "cycle detected";
    match e
    case RootCycle(c, v) =>
      var a := "cycle detected: candidate root '";
      assert a[..14] == t;
      assert OccursAt(a, t, 0);
      ContainsLeft(a, Render(c), t);
      ContainsLeft(a + Render(c), "' contains visited root '", t);
      ContainsLeft(a + Render(c) + "' contains visited root '", Render(v), t);
      ContainsLeft(a + Render(c) + "' contains visited root '" + Render(v), "'", t);
    case RepoCycle(n, p) =>
      var a := "cycle detected: URI '";
      assert a[..14] == t;
      assert OccursAt(a, t, 0);
      ContainsLeft(a, n.Raw(), t);
      ContainsLeft(a + n.Raw(), "' referenced by previous URI '", t);
      ContainsLeft(a + n.Raw() + "' referenced by previous URI '", p.Raw(), t);
      ContainsLeft(a + n.Raw() + "' referenced by previous URI '" + p.Raw(), "'", t);
  }

  /** Proof step: the literal fact NotInOrBelowMessage needs. */
  lemma NotInOrBelowInfix()
    ensures Contains("' is not in or below '", "is not in or below")
  {
    var m := "' is not in or below '";
    assert m[2..20] == "is not in or below";
    assert OccursAt(m, "is not in or below", 2);
  }

  /** A confinement failure of Load says "is not in or below". */
  lemma NotInOrBelowMessage(f: Path, r: Path)
    ensures Contains(Message(NotInOrBelow(f, r)), "is not in or below")
  {
    var t := "is not in or below";
    var x := "security; file '" + Render(f);
    var m := "' is not in or below '";
    NotInOrBelowInfix();
    ContainsRight(x, m, t);
    ContainsLeft(x + m, Render(r), t);
    ContainsLeft(x + m + Render(r), "'", t);
  }

  lemma Regroup(a: string, b: string, c: string, d: string, e: string, f: string)
    ensures a + b + c + d + e + f == a + (b + c + d + e + f)
  {
  }

  /** Proof step: the literal fact OutsideCloneMessage needs. */
  lemma OutsideCloneLead()
    ensures "security; bases in kustomizations found in cloned git repos must be within the repo, but " + "base '"
         == "security; bases in kustomizations found in cloned git repos must be within the repo, but base '"
  {
  }

  /** A clone-boundary failure names the base and the clone directory. */
  lemma OutsideCloneMessage(b: Path, c: Path)
    ensures Contains(Message(OutsideClone(b, c)), "base '" + Render(b) + "' is outside '" + Render(c) + "'")
  {
    var a := "security; bases in kustomizations found in cloned git repos must be within the repo, but ";
    var t := "base '" + Render(b) + "' is outside '" + Render(c) + "'";
    OutsideCloneLead();
    Regroup(a, "base '", Render(b), "' is outside '", Render(c), "'");
    ContainsItself(t);
    ContainsRight(a, t, t);
  }

  // ---------------------------------------------------------------------
  // Classifying a reference

  predicate IsLetter(c: char) {
    'a' <= c <= 'z' || 'A' <= c <= 'Z'
  }

  predicate IsSchemeChar(c: char) {
    IsLetter(c) || '0' <= c <= '9' || c == '+' || c == '-' || c == '.'
  }

  /** The length of the run of scheme characters that s begins with. */
  function SchemeLength(s: string): (n: nat)
    ensures n <= |s|
    ensures forall i | 0 <= i < n :: IsSchemeChar(s[i])
    ensures n < |s| ==> !IsSchemeChar(s[n])
  {
    if s == [] || !IsSchemeChar(s[0]) then 0 else 1 + SchemeLength(s[1..])
  }

  /** The scheme of a reference written scheme://rest, as url.Parse reads it. */
  function Scheme(s: string): Option<string> {
    var n := SchemeLength(s);
    if 0 < n && IsLetter(s[0]) && StartsWith(s[n..], "://") then Some(s[..n]) else None
  }

  /** The run of scheme characters ends at the first other character. */
  lemma {:induction false} SchemeLengthAt(s: string, k: nat)
    requires k < |s| && !IsSchemeChar(s[k])
    requires forall i | 0 <= i < k :: IsSchemeChar(s[i])
    ensures SchemeLength(s) == k
  {
    if k > 0 {
      assert IsSchemeChar(s[0]);
      SchemeLengthAt(s[1..], k - 1);
    }
  }

  /** A scheme is a letter, then scheme characters, followed in the reference by "://". */
  lemma SchemeIff(s: string, sc: string)
    ensures Scheme(s) == Some(sc) <==>
      && sc != [] && IsLetter(sc[0])
      && (forall i | 0 <= i < |sc| :: IsSchemeChar(sc[i]))
      && StartsWith(s, sc + "://")
  {
    var n := SchemeLength(s);
    if Scheme(s) == Some(sc) {
      assert sc == s[..n];
      assert s[..n + 3] == s[..n] + s[n..][..3];
    }
    if && sc != [] && IsLetter(sc[0])
       && (forall i | 0 <= i < |sc| :: IsSchemeChar(sc[i]))
       && StartsWith(s, sc + "://")
    {
      assert forall i | 0 <= i < |sc| :: s[i] == sc[i] by {
        forall i | 0 <= i < |sc| ensures s[i] == sc[i] {
          assert s[..|sc| + 3][i] == (sc + "://")[i];
        }
      }
      assert s[|sc|] == (sc + "://")[|sc|] == ':';
      SchemeLengthAt(s, |sc|);
      assert s[..n] == sc;
      assert s[n..][..3] == s[..n + 3][n..];
    }
  }

  datatype Kind = HttpUrl | OtherUrl(scheme: string) | LocalRef

  /** Whether a reference is an http(s) URL, a URL with another scheme, or a path. */
  function Classify(s: string): (k: Kind)
    ensures k.OtherUrl? ==> k.scheme != "http" && k.scheme != "https" && Scheme(s) == Some(k.scheme)
    ensures k == LocalRef <==> Scheme(s).None?
  {
    match Scheme(s)
    case Some(sc) => if sc == "http" || sc == "https" then HttpUrl else OtherUrl(sc)
    case None => LocalRef
  }

  /** Exactly the references starting "http://" or "https://" go to the HTTP client. */
  lemma ClassifyHttp(s: string)
    ensures Classify(s) == HttpUrl <==> StartsWith(s, "http://") || StartsWith(s, "https://")
  {
    SchemeIff(s, "http");
    SchemeIff(s, "https");
    assert "http" + "://" == "http://";
    assert "https" + "://" == "https://";
  }

  // ---------------------------------------------------------------------
  // Load

  /** What Load returns, and each URL it asked the HTTP client for. */
  datatype Loaded = Loaded(content: Result<string, LoaderError>, requests: seq<string>)

  /** A GET of url through client; only status 200 gives the body. */
  function Fetch(client: HttpClient, url: string): Result<string, LoaderError> {
    if url !in client.responses then Failure(TransportFailed(url))
    else if client.responses[url].statusCode != 200 then Failure(BadStatus(url, client.responses[url].statusCode))
    else Success(client.responses[url].body)
  }

  /**
   * RestrictionRootOnly: the real path p names must be a file whose
   * directory is in or below root; it is what gets read.
   */
  function RestrictRootOnly(fs: Nodes, root: Path, p: Path): (r: Result<Path, LoaderError>)
    ensures r.Success? ==> r.value in fs && fs[r.value].File?
  {
    match Resolve(fs, p)
    case None => Failure(NoSuchPath(p))
    case Some(q) =>
      if fs[q] == Dir then Failure(NotAFile(p))
      else if !HasPrefix(Parent(q), root) then Failure(NotInOrBelow(p, root))
      else Success(q)
  }

  function Restrict(lr: LoadRestriction, fs: Nodes, root: Path, p: Path): Result<Path, LoaderError> {
    match lr
    case RestrictionRootOnly => RestrictRootOnly(fs, root, p)
    case RestrictionNone => Success(p)
  }

  /** ReadFile: the content of the file p resolves to. */
  function ReadFile(fs: Nodes, p: Path): Result<string, LoaderError> {
    match Resolve(fs, p)
    case None => Failure(NoSuchPath(p))
    case Some(q) => if fs[q].File? then Success(fs[q].content) else Failure(ReadFailed(p))
  }

  /** Load of a local path: joined to the root, restricted, then read. */
  function LoadLocal(l: FileLoader, fs: Nodes, path: string): Result<string, LoaderError> {
    var p := Join(l.root, path);
    match Restrict(l.loadRestrictor, fs, l.root, p)
    case Failure(e) => Failure(e)
    case Success(q) => ReadFile(fs, q)
  }

  /** Load(path): the bytes path names, with the requests made for them. */
  function Load(l: FileLoader, fs: Nodes, path: string): (r: Loaded)
    ensures r.requests == [] || r.requests == [path]
    ensures r.requests == [path] <==> Classify(path) == HttpUrl && l.http.Some?
    ensures Classify(path).OtherUrl? ==> r.content == Failure(UnsupportedScheme(Classify(path).scheme))
  {
    match Classify(path)
    case HttpUrl =>
      if l.http.None? then Loaded(Failure(NoHttpClient(path)), [])
      else Loaded(Fetch(l.http.value, path), [path])
    case OtherUrl(sc) => Loaded(Failure(UnsupportedScheme(sc)), [])
    case LocalRef => Loaded(LoadLocal(l, fs, path), [])
  }

  // ---------------------------------------------------------------------
  // Making loaders

  /** demandDirectoryRoot: the real directory p names. */
  function DemandDirectoryRoot(fs: Nodes, p: Path): (r: Result<Path, LoaderError>)
    ensures r.Success? <==> Resolve(fs, p).Some? && fs[Resolve(fs, p).value] == Dir
    ensures r.Success? ==> r.value == Resolve(fs, p).value
  {
    match Resolve(fs, p)
    case None => Failure(NoSuchPath(p))
    case Some(d) => if fs[d] == Dir then Success(d) else Failure(NotADirectory(p))
  }

  /** newLoaderAtConfirmedDir: a loader at a directory known to exist, with no HTTP client. */
  function NewLoaderAtConfirmedDir(lr: LoadRestriction, root: Path, referrers: seq<Visit>, cloner: Cloner): (l: FileLoader)
    ensures l.Visits() == referrers + [Visit(root, None)]
    ensures Join([], l.Root()) == root && l.loadRestrictor == lr && l.http.None?
  {
    FileLoader(referrers, root, lr, None, None, cloner)
  }

  /** newLoaderOrDie: a first loader at the directory path names, cloning with git. */
  function NewLoaderOrDie(lr: LoadRestriction, fs: Nodes, path: string): (r: Result<FileLoader, LoaderError>)
    ensures path == "" ==> r == Failure(EmptyRoot)
    ensures r.Success? ==> r.value.root in fs && fs[r.value.root] == Dir
    ensures r.Success? ==> r.value.Visits() == [Visit(r.value.root, None)] && r.value.loadRestrictor == lr
  {
    if path == "" then Failure(EmptyRoot)
    else match DemandDirectoryRoot(fs, Join([], path))
      case Failure(e) => Failure(e)
      case Success(root) => Success(NewLoaderAtConfirmedDir(lr, root, [], ClonerUsingGitExec))
  }

  /** NewFileLoaderAtRoot: a first loader at "/", reading only below it. */
  function NewFileLoaderAtRoot(fs: Nodes): (r: Result<FileLoader, LoaderError>)
    ensures WellFormed(fs) ==> r.Success? && r.value.root == []
    ensures r.Success? ==> r.value.loadRestrictor == RestrictionRootOnly && r.value.referrers == []
  {
    JoinSlash([]);
    assert WellFormed(fs) ==> Resolve(fs, []) == Some([]) by {
      if WellFormed(fs) {
        ResolvePlain(fs, []);
      }
    }
    NewLoaderOrDie(RestrictionRootOnly, fs, [Separator])
  }

  /** newLoaderAtGitClone: a loader at the directory spec names inside its clone. */
  function NewLoaderAtGitClone(spec: RepoSpec, fs: Nodes, referrers: seq<Visit>, cloner: Cloner): (r: Result<FileLoader, LoaderError>)
    ensures cloner.ClonerUsingGitExec? ==> r == Failure(CloneFailed(spec))
    ensures r.Success? ==> r.value.root in fs && fs[r.value.root] == Dir
    ensures r.Success? ==>
      && r.value.repoSpec == Some(Clone(spec, cloner.dir)) && r.value.referrers == referrers
      && r.value.loadRestrictor == RestrictionRootOnly
  {
    match cloner
    case ClonerUsingGitExec => Failure(CloneFailed(spec))
    case DoNothingCloner(dir) =>
      var clone := Clone(spec, dir);
      match DemandDirectoryRoot(fs, clone.AbsPath())
      case Failure(e) => Failure(e)
      case Success(root) => Success(FileLoader(referrers, root, RestrictionRootOnly, Some(clone), None, cloner))
  }

  /** The visited root lies in or below the candidate, by the test on printed paths. */
  function HasVisitedPrefix(v: Visit, candidate: Path): (b: bool)
    ensures b == InOrBelow(v.root, candidate)
  {
    HasPrefixIsInOrBelow(v.root, candidate);
    HasPrefix(v.root, candidate)
  }

  /** errIfArgEqualOrHigher: the newest visited root that lies in or below the candidate. */
  function VisitedInOrBelow(visits: seq<Visit>, candidate: Path): (r: Option<Path>)
    ensures r.None? <==> forall i | 0 <= i < |visits| :: !InOrBelow(visits[i].root, candidate)
    ensures r.Some? ==> InOrBelow(r.value, candidate)
    ensures r.Some? ==> exists i | 0 <= i < |visits| :: visits[i].root == r.value
    decreases |visits|
  {
    if visits == [] then None
    else
      var v, older := visits[|visits| - 1], visits[..|visits| - 1];
      if HasVisitedPrefix(v, candidate) then
        assert InOrBelow(visits[|visits| - 1].root, candidate);
        Some(v.root)
      else
        var r := VisitedInOrBelow(older, candidate);
        assert r.None? <==> forall i | 0 <= i < |visits| :: !InOrBelow(visits[i].root, candidate) by {
          assert visits == older + [v];
        }
        r
  }

  /** containingRepo: the clone behind the newest visit that came from one. */
  function ContainingRepo(visits: seq<Visit>): (r: Option<Clone>)
    ensures r.None? <==> forall i | 0 <= i < |visits| :: visits[i].repo.None?
    ensures r.Some? ==> exists i | 0 <= i < |visits| ::
      visits[i].repo == r && forall j | i < j < |visits| :: visits[j].repo.None?
    decreases |visits|
  {
    if visits == [] then None
    else if visits[|visits| - 1].repo.Some? then visits[|visits| - 1].repo
    else
      var older := visits[..|visits| - 1];
      var r := ContainingRepo(older);
      assert r.Some? ==> exists i | 0 <= i < |visits| ::
        visits[i].repo == r && forall j | i < j < |visits| :: visits[j].repo.None? by {
        if r.Some? {
          var i :| 0 <= i < |older| && older[i].repo == r && forall j | i < j < |older| :: older[j].repo.None?;
          assert forall j | i < j < |visits| :: visits[j].repo.None? by {
            forall j | i < j < |visits|
              ensures visits[j].repo.None?
            {
              if j < |older| {
                assert visits[j] == older[j];
              }
            }
          }
        }
      }
      assert forall i | 0 <= i < |older| :: older[i] == visits[i];
      r
  }

  /** errIfGitContainmentViolation: a base reached from inside a clone stays inside it. */
  function ContainmentViolation(visits: seq<Visit>, base: Path): (r: Option<LoaderError>)
    ensures r.None? <==> ContainingRepo(visits).None? || InOrBelow(base, ContainingRepo(visits).value.cloneDir)
    ensures r.Some? ==> r.value == OutsideClone(base, ContainingRepo(visits).value.cloneDir)
  {
    match ContainingRepo(visits)
    case None => None
    case Some(c) =>
      HasPrefixIsInOrBelow(base, c.cloneDir);
      if HasPrefix(base, c.cloneDir) then None else Some(OutsideClone(base, c.cloneDir))
  }

  /** v came from the same repository, at or below the directory spec names in it. */
  predicate Covers(v: Visit, spec: RepoSpec) {
    v.repo.Some? && v.repo.value.spec.repo == spec.repo && spec.pathInRepo <= v.repo.value.spec.pathInRepo
  }

  /** errIfRepoCycle: the newest visited reference that spec covers. */
  function RepoCycleWith(visits: seq<Visit>, spec: RepoSpec): (r: Option<RepoSpec>)
    ensures r.None? <==> forall i | 0 <= i < |visits| :: !Covers(visits[i], spec)
    ensures r.Some? ==> exists i | 0 <= i < |visits| :: Covers(visits[i], spec) && visits[i].repo.value.spec == r.value
    decreases |visits|
  {
    if visits == [] then None
    else if Covers(visits[|visits| - 1], spec) then Some(visits[|visits| - 1].repo.value.spec)
    else
      var older := visits[..|visits| - 1];
      assert forall i | 0 <= i < |older| :: older[i] == visits[i];
      RepoCycleWith(older, spec)
  }

  /** New(path): a loader for the base or component path names. */
  function New(l: FileLoader, fs: Nodes, path: string): (r: Result<FileLoader, LoaderError>)
    ensures path == "" ==> r == Failure(EmptyRoot)
    ensures r.Success? ==> r.value.root in fs && fs[r.value.root] == Dir
    ensures r.Success? ==> r.value.referrers == l.Visits() && r.value.cloner == l.cloner && r.value.http.None?
  {
    if path == "" then Failure(EmptyRoot)
    else match ParseRepoSpec(path)
      case Some(spec) =>
        (match RepoCycleWith(l.Visits(), spec)
         case Some(previous) => Failure(RepoCycle(spec, previous))
         case None => NewLoaderAtGitClone(spec, fs, l.Visits(), l.cloner))
      case None =>
        match DemandDirectoryRoot(fs, Join(l.root, path))
        case Failure(e) => Failure(e)
        case Success(root) =>
          match ContainmentViolation(l.Visits(), root)
          case Some(e) => Failure(e)
          case None =>
            match VisitedInOrBelow(l.Visits(), root)
            case Some(visited) => Failure(RootCycle(root, visited))
            case None => Success(NewLoaderAtConfirmedDir(l.loadRestrictor, root, l.Visits(), l.cloner))
  }
}
