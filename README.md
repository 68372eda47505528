# kustomize's file loader, modelled in Dafny

kustomize reads a kustomization's resources and bases through a *file
loader*. The loader has a root directory and a load restriction. It also
keeps the chain of loaders that led to it (its referrers), the git clone it
was made from (if any), an HTTP client and a cloner.

- `Root()` prints the root.
- `Load(ref)` returns the bytes a reference names. The reference can be an
  http(s) URL fetched through the client, or a local path. A local path is
  joined to the root, its symlinks are resolved and it is confined by the
  restriction. Any other `scheme://` is refused.
- `New(ref)` returns a loader for a base. A local directory must not be the
  current root or any earlier one, nor lie above one. A remote
  `github.com/org/repo/path` reference is cloned and rooted at
  `cloneDir/path`. Two rules stop cycles and escapes through clones:
  - a reference to a directory of an already-loaded repository at or above
    one loaded before is a cycle;
  - a local base reached from inside a clone must stay inside the clone.

The behaviour modelled is the one `api/loader/fileloader_test.go` fixes.
`api/loader/fileloader.go` is not part of this model, so each decision
procedure is written from what the tests require.

Files:

- `wrappers.dfy`: `Option` and `Result`.
- `paths.dfy`: cleaned absolute paths as sequences of segments.
  - `Join` joins a reference to a root and cleans the result as
    `filepath.Clean` does: `.`, `..`, doubled and trailing separators. An
    absolute reference is read from "/" instead of from the root; this is
    the model's own rule, not what `filepath.Join` does (see "## Left out").
  - `Render` prints a path. `InOrBelow` and `HasPrefix` are the
    directory-boundary containment tests.
- `filesys.dfy`: the in-memory file system.
  - A map from paths to directories, files and symlinks.
  - `Resolve` models `filepath.EvalSymlinks`.
  - The pure updates `WithFile`, `WithDirs`, `WithDir` and `WithSymlink`.
  - A `FileSystem` class whose `WriteFile`, `MkdirAll`, `Mkdir` and
    `Symlink` methods change its nodes.
- `git.dfy`: `RepoSpec` (repository and path in it) and `Clone` (spec and
  clone directory). `ParseRepoSpec` parses the `github.com/org/repo[/path]`
  references the tests use. The cloner is either `DoNothingCloner(dir)` or
  cloning with git.
- `loader.dfy`: the loader value, its errors and messages, `Classify`,
  `Load`, the constructors (`NewLoaderOrDie`, `NewFileLoaderAtRoot`,
  `NewLoaderAtConfirmedDir`, `NewLoaderAtGitClone`) and `New`.
- `loader_lemmas.dfy`: general properties of `New` and `Load`: the error
  cases and the success condition, chain soundness, confinement and HTTP
  classification.
- `fixtures.dfy`: the file systems the tests build. `MakeFakeFs` is a loop
  of `WriteFile`s. `CommonSetup` builds the restriction-test layout in a
  temporary directory.
- `scenarios.dfy`: each test's steps as lemmas, giving the roots, contents
  and errors the test expects. Most are generic over the names involved
  (directories, organisation, repository) and over any file system holding
  the directories the test makes.

## Model

| member | source | states |
|---|---|---|
| Fixtures.MakeFakeFs | api/loader/fileloader_test.go:47-53 | building the in-memory file system writes each test file in order; the result is the fold `FakeNodes` of the writes |
| Fixtures.FakeNodesHold | api/loader/fileloader_test.go:47-53 | when no test path is in or above another, every written file is present with its content, every node is one of them or a directory above one |
| Fixtures.TestCasesIndependent | api/loader/fileloader_test.go:28-45 | the four test paths are non-empty and none lies in or below another |
| Fixtures.TestFsShapeHolds | api/loader/fileloader_test.go:28-57 | the test file system is well formed, holds the four files with their contents and the directories foo/project, subdir1 and subdir2, and nothing outside /foo |
| Fixtures.CommonSetup | api/loader/fileloader_test.go:172-191 | in an existing temporary directory, the restriction-test setup leaves the file system valid and equal to `RestrictionLayout` of the old one: base, okayData, exteriorData and the two links |
| Fixtures.LayoutShapeHolds | api/loader/fileloader_test.go:172-191 | in a fresh temporary directory the layout has base as a directory, the two files with their contents, and the two links with absolute targets |
| FileSys.FileSystem.constructor | api/loader/fileloader_test.go:48 | an in-memory file system starts with only the root directory |
| FileSys.FileSystem.WriteFile | api/loader/fileloader_test.go:50 | WriteFile reports success exactly when every directory on the way is a directory or missing and the path is not a directory; the new nodes are `WithFile` of the old, the missing directories created |
| FileSys.FileSystem.MkdirAll | api/loader/fileloader_test.go:299 | MkdirAll reports success exactly when the path and every directory on the way are directories or missing; the new nodes are `WithDirs` of the old |
| FileSys.FileSystem.Mkdir | api/loader/fileloader_test.go:176 | Mkdir succeeds exactly in an existing directory at a free name; the new nodes gain that one directory |
| FileSys.FileSystem.Symlink | api/loader/fileloader_test.go:184-189 | Symlink succeeds exactly in an existing directory at a free name; the new nodes gain that one link |
| FileSys.WithFileKeeps | api/loader/fileloader_test.go:49-51 | writing a new file keeps every earlier node; the only non-directory it adds is the file itself |
| FileSys.WithDirsKeeps | api/loader/fileloader_test.go:313-315 | MkdirAll keeps every earlier node and adds only directories on the way to p |
| FileSys.AddNode | api/loader/fileloader_test.go:176-189 | a new node in an existing directory keeps the file system well formed, and Mkdir, WriteFile and Symlink add exactly that node |
| FileSys.Resolve | api/loader/fileloader_test.go:213-220 | the real path of a path, when there is one, is an existing directory or file, never a link; ResolvePlain and ResolveLink state where it leads |
| FileSys.ResolvePlain | api/loader/fileloader_test.go:213-215 | a directory or a file resolves to itself |
| FileSys.ResolveLink | api/loader/fileloader_test.go:218-220 | a link resolves to the node its target names, joined from the link's directory |
| Paths.Join | api/loader/fileloader_test.go:70-81 | no contract of its own: the lemmas JoinSegment, JoinWords, JoinDot, JoinDotDot, JoinUp, JoinSlash, JoinDoubleSlash, JoinAbsolute, JoinTrailingSlash and JoinThenJoin below state the paths references name |
| Paths.RenderJoin | api/loader/fileloader_test.go:63 | a printed path read back from any root is the path again: `Root()` names the root |
| Paths.RenderInjective | api/loader/fileloader_test.go:72 | two paths that print alike are equal |
| Paths.JoinTrailingSlash | api/loader/fileloader_test.go:79-81 | a trailing separator does not change the path a reference names |
| Paths.JoinAbsolute | api/loader/fileloader_test.go:124-129 | an absolute reference names the same path from every root |
| Paths.JoinThenJoin | api/loader/fileloader_test.go:116 | joining a and then b is joining "a/b" |
| Paths.JoinWords | api/loader/fileloader_test.go:65-68 | "w/a/b" names w, a and b below the root |
| Paths.JoinDoubleSlash | api/loader/fileloader_test.go:154 | a doubled separator counts once: "https://google.com/project" is the path https:, google.com, project |
| Paths.JoinUp | api/loader/fileloader_test.go:116 | "../t" from a root is t from the root's parent |
| Paths.JoinDot | api/loader/fileloader_test.go:112 | "." names the root itself |
| Paths.JoinDotDot | api/loader/fileloader_test.go:120 | ".." names the root's parent |
| Paths.JoinSlash | api/loader/fileloader_test.go:128 | "/" names the top of the file system |
| Paths.JoinSegment | api/loader/fileloader_test.go:90-92 | a single component names that directory below the root |
| Paths.HasPrefix | api/loader/fileloader_test.go:360-363 | no contract of its own: HasPrefixIsInOrBelow states that this test on printed paths is containment by components |
| Paths.HasPrefixIsInOrBelow | api/loader/fileloader_test.go:360-363 | the prefix test on printed paths respects directory boundaries; it is exactly containment by components |
| Git.ParseRepoSpecRaw | api/loader/fileloader_test.go:268-270 | parsing github.com/org/repo/p gives the repository github.com/org/repo and the path p |
| Git.ParseRawRoundTrip | api/loader/fileloader_test.go:268-270 | a reference written as github.com/org/repo followed by clean path components parses, and prints back as itself |
| Git.ParseOfRaw | api/loader/fileloader_test.go:268-281 | every reference that parses prints back in canonical form, and that form parses to the same spec again |
| Git.ParseRepoSpec | api/loader/fileloader_test.go:281 | only references starting with github.com/ parse as remote ones |
| Git.Clone.AbsPath | api/loader/fileloader_test.go:288 | the directory a spec names in a clone lies in or below the clone directory, one component deeper per path component |
| Loader.FileLoader.Root | api/loader/fileloader_test.go:63 | the root prints as an absolute path that names the root again |
| Loader.Classify | api/loader/fileloader_test.go:446-510 | a reference is a local path exactly when it has no scheme; any other scheme is neither http nor https |
| Loader.ClassifyHttp | api/loader/fileloader_test.go:466-491 | exactly the references starting http:// or https:// go to the HTTP client |
| Loader.Load | api/loader/fileloader_test.go:446-510 | Load makes at most one request, exactly for an http(s) URL with a client present, and an unknown scheme fails as unsupported |
| Loader.RestrictRootOnly | api/loader/fileloader_test.go:225-245 | under RestrictionRootOnly only an existing file is ever read |
| Loader.DemandDirectoryRoot | api/loader/fileloader_test.go:108-109 | a root is accepted exactly when the path resolves to a directory, and the real path is used |
| Loader.HasVisitedPrefix | api/loader/fileloader_test.go:112-129 | the printed-path prefix test on a visited root agrees with its lying in or below the candidate |
| Loader.VisitedInOrBelow | api/loader/fileloader_test.go:112-129 | the cycle check finds nothing exactly when no visited root lies in or below the candidate; what it finds is a visited root in or below the candidate |
| Loader.ContainingRepo | api/loader/fileloader_test.go:355-363 | the containing clone is absent exactly when no visit came from a clone, and otherwise is the clone of a visit after which no visit came from a clone: the newest one |
| Loader.ContainmentViolation | api/loader/fileloader_test.go:355-363 | there is no violation exactly when the chain came from no clone or the base lies in or below the containing clone's directory; a violation names the base and that directory |
| Loader.RepoCycleWith | api/loader/fileloader_test.go:290-295 | the repo-cycle check finds nothing exactly when no visit covers the requested reference; what it finds is the spec of a visit that covers it |
| Loader.CycleMessage | api/loader/fileloader_test.go:402-404 | both kinds of cycle error say "cycle detected" |
| Loader.NotInOrBelowMessage | api/loader/fileloader_test.go:236-238 | a confinement error says "is not in or below" |
| Loader.OutsideCloneMessage | api/loader/fileloader_test.go:360-363 | a clone-boundary error contains "base '<base>' is outside '<clone>'" |
| Loader.NewLoaderAtConfirmedDir | api/loader/fileloader_test.go:374-378 | the loader's chain is the referrers followed by itself with no clone; its printed root names the directory; it keeps the restriction and has no HTTP client |
| Loader.NewLoaderOrDie | api/loader/fileloader_test.go:231 | the empty path fails with EmptyRoot; a loader made is rooted at an existing directory, is alone in its chain with no clone, and has the given restriction; LoaderOrDieAt gives the exact success condition |
| Loader.NewFileLoaderAtRoot | api/loader/fileloader_test.go:56 | over a well-formed file system a loader is made at "/", with no referrers and RestrictionRootOnly; RootLoader gives the whole loader |
| Loader.NewLoaderAtGitClone | api/loader/fileloader_test.go:284-288 | cloning with git fails; a loader made is rooted at an existing directory, records the clone of the spec in the cloner's directory, keeps the referrers and reads only below its root; GitCloneAt gives the exact success condition and root |
| Loader.New | api/loader/fileloader_test.go:101-154 | the empty reference fails with EmptyRoot; a loader made is rooted at an existing directory and has the parent's chain as its referrers, the parent's cloner and no HTTP client; NewLocal and NewRemote give the exact success conditions and errors |
| LoaderLemmas.RootLoader | api/loader/fileloader_test.go:55-63 | NewFileLoaderAtRoot gives a loader at "/" with an empty chain, RestrictionRootOnly, no clone and no client |
| LoaderLemmas.LoaderOrDieAt | api/loader/fileloader_test.go:229 | newLoaderOrDie succeeds exactly at a path resolving to a directory, rooted at its real path with an empty chain |
| LoaderLemmas.GitCloneAt | api/loader/fileloader_test.go:284-288 | with a DoNothingCloner, newLoaderAtGitClone succeeds exactly when the clone directory plus the path in the repo resolves to a directory, rooted there, RestrictionRootOnly, remembering the clone; cloning with git fails |
| LoaderLemmas.NewLocal | api/loader/fileloader_test.go:100-145 | local New: a missing path fails, a non-directory fails, leaving the containing clone fails; it succeeds exactly for a directory inside any containing clone with no visited root in or below it, and the child extends the chain |
| LoaderLemmas.NewAtOrAboveVisitedFails | api/loader/fileloader_test.go:112-129 | New of a directory at or above any root of the chain fails |
| LoaderLemmas.NewSelfFails | api/loader/fileloader_test.go:112-113 | New(".") fails |
| LoaderLemmas.NewParentFails | api/loader/fileloader_test.go:120-121 | New("..") fails |
| LoaderLemmas.NewTopFails | api/loader/fileloader_test.go:128-129 | New("/") fails |
| LoaderLemmas.NewRemote | api/loader/fileloader_test.go:290-303 | remote New fails as a repo cycle exactly when some visit of the chain covers the reference, and otherwise is newLoaderAtGitClone with the chain extended |
| LoaderLemmas.FirstLoadersSound | api/loader/fileloader_test.go:374-377 | a first loader, local or from a clone, has a sound chain |
| LoaderLemmas.NewKeepsChainSound | api/loader/fileloader_test.go:100-145 | New keeps the chain sound: no root revisited or nested above an earlier one, no repository reference covered twice, clones never left |
| LoaderLemmas.NewKeepsCloneBoundary | api/loader/fileloader_test.go:355-363 | a local child keeps its parent's containing clone and its root lies inside it; a git-clone child's containing clone is its own |
| LoaderLemmas.LoadRootOnly | api/loader/fileloader_test.go:225-245 | under RestrictionRootOnly a local Load succeeds exactly for a path resolving to a file whose directory is in or below the root, and fails with NotInOrBelow when it is outside |
| LoaderLemmas.LoadUnrestricted | api/loader/fileloader_test.go:247-263 | under RestrictionNone a local Load succeeds exactly for a path resolving to a file |
| LoaderLemmas.RootOnlyWithinNone | api/loader/fileloader_test.go:225-263 | what RestrictionRootOnly reads, RestrictionNone reads the same |
| LoaderLemmas.LoadHttp | api/loader/fileloader_test.go:466-491 | an http(s) URL with a client makes one request for that URL and succeeds exactly on a 200 response, with its body |
| LoaderLemmas.ClientOnlyForUrls | api/loader/fileloader_test.go:452-464 | for any other reference the client is never asked and changes nothing |
| LoaderLemmas.NoColonIsLocal | api/loader/fileloader_test.go:452-464 | a reference without a colon is a local path |
| Scenarios.MakeLoader | api/loader/fileloader_test.go:55-63 | the test loader is at "/" |
| Scenarios.LoadFromTop | api/loader/fileloader_test.go:65-69 | each of the four test files loads from "/" by its path, with its content and no request |
| Scenarios.NewProject | api/loader/fileloader_test.go:70-81 | New("foo/project") and New("foo/project/") both give the loader rooted at /foo/project |
| Scenarios.ProjectLoadA | api/loader/fileloader_test.go:74-78 | from /foo/project, fileA.yaml loads "fileA content" |
| Scenarios.ProjectLoadB | api/loader/fileloader_test.go:74-78 | from /foo/project, subdir1/fileB.yaml loads "fileB content" |
| Scenarios.ProjectLoadC | api/loader/fileloader_test.go:74-78 | from /foo/project, subdir2/fileC.yaml loads "fileC content" |
| Scenarios.ProjectLoadD | api/loader/fileloader_test.go:74-78 | from /foo/project, fileD.yaml loads "fileD content" |
| Scenarios.NewSubDir | api/loader/fileloader_test.go:84-92 | New("subdir1") from /foo/project gives root /foo/project/subdir1 |
| Scenarios.LoadFromSubdir1 | api/loader/fileloader_test.go:94-97 | from there fileB.yaml loads "fileB content" |
| Scenarios.NewSubdir1 | api/loader/fileloader_test.go:103-105 | New("foo/project/subdir1") from "/" gives root /foo/project/subdir1 |
| Scenarios.NewOfFileFails | api/loader/fileloader_test.go:108-109 | New("fileB.yaml") fails: not a directory |
| Scenarios.NewSelfCycles | api/loader/fileloader_test.go:112-113 | New(".") fails as a root cycle |
| Scenarios.NewUpAndBackCycles | api/loader/fileloader_test.go:116-117 | New("../subdir1") fails as a root cycle |
| Scenarios.NewParentCycles | api/loader/fileloader_test.go:120-121 | New("..") fails as a root cycle |
| Scenarios.NewAbsoluteUpCycles | api/loader/fileloader_test.go:124-125 | New("/foo/project") fails as a root cycle |
| Scenarios.NewTopCycles | api/loader/fileloader_test.go:128-129 | New("/") fails as a root cycle |
| Scenarios.NewSibling | api/loader/fileloader_test.go:132-134 | New("../subdir2") succeeds with root /foo/project/subdir2 |
| Scenarios.LoadFromSibling | api/loader/fileloader_test.go:136-139 | from there fileC.yaml loads "fileC content" |
| Scenarios.NewBackCycles | api/loader/fileloader_test.go:143-144 | New("../subdir1") from the sibling fails: subdir1 is already in the chain |
| Scenarios.NewEmptyFails | api/loader/fileloader_test.go:149-150 | New("") fails |
| Scenarios.NewWebAddressFails | api/loader/fileloader_test.go:154-155 | New("https://google.com/project") fails: no such directory |
| Scenarios.RestrictionLoader | api/loader/fileloader_test.go:229 | newLoaderOrDie at the temporary directory gives a loader there, for either restriction |
| Scenarios.SanityOkay | api/loader/fileloader_test.go:200-202 | base/okayData loads the OK content |
| Scenarios.SanityExterior | api/loader/fileloader_test.go:204-206 | exteriorData loads the exterior content |
| Scenarios.DropIntoBase | api/loader/fileloader_test.go:209-210 | New("base") succeeds, rooted at base |
| Scenarios.BaseOkay | api/loader/fileloader_test.go:213-215 | from base, okayData loads the OK content |
| Scenarios.BaseLinkOkay | api/loader/fileloader_test.go:218-220 | from base, symLinkToOkayData loads the OK content |
| Scenarios.RootOnlyRefusesLink | api/loader/fileloader_test.go:236-238 | under RestrictionRootOnly, symLinkToExteriorData fails with an error saying "is not in or below" |
| Scenarios.RootOnlyRefusesUp | api/loader/fileloader_test.go:242-244 | under RestrictionRootOnly, ../exteriorData fails with an error saying "is not in or below" |
| Scenarios.NoneReadsLink | api/loader/fileloader_test.go:257-258 | under RestrictionNone, symLinkToExteriorData loads the exterior content |
| Scenarios.NoneReadsUp | api/loader/fileloader_test.go:261-262 | under RestrictionNone, ../exteriorData loads the exterior content |
| Scenarios.GitCloneLoader | api/loader/fileloader_test.go:268-288 | the reference parses, and newLoaderAtGitClone roots the loader at /tmp/foo/base |
| Scenarios.GitCloneCycles | api/loader/fileloader_test.go:290-295 | from there New of the same reference, and of its ancestor .../foo, fail as repo cycles |
| Scenarios.GitCloneSibling | api/loader/fileloader_test.go:297-303 | once /tmp/foo/overlay exists, New of .../foo/overlay succeeds with root /tmp/foo/overlay |
| Scenarios.AllDirsKept | api/loader/fileloader_test.go:390-391 | MkdirAll on a file system holding only directories succeeds, keeps it well formed and holding only directories, and adds the path |
| Scenarios.OverlayTestFsShape | api/loader/fileloader_test.go:310-315 | the three MkdirAll calls leave highBase, foo/base and foo/overlay as directories |
| Scenarios.LocalOverlayLoader | api/loader/fileloader_test.go:320-323 | newLoaderOrDie at .../someClone/foo/overlay gives a loader printing that root |
| Scenarios.LocalOverlayReachesBase | api/loader/fileloader_test.go:325-327 | from the local overlay, New("../base") succeeds with root .../foo/base |
| Scenarios.LocalBaseReachesHigh | api/loader/fileloader_test.go:329-331 | from the local base, New("../../../highBase") succeeds with root /whatever/highBase |
| Scenarios.RemoteOverlayLoader | api/loader/fileloader_test.go:344-352 | the overlay reference parses, and newLoaderAtGitClone roots the loader at .../someClone/foo/overlay |
| Scenarios.NewWithin | api/loader/fileloader_test.go:355-357 | from inside a clone, New of a directory inside the clone that is neither visited nor above a visited root succeeds with that root and no clone of its own |
| Scenarios.RemoteOverlayReachesBase | api/loader/fileloader_test.go:355-357 | from the cloned overlay, New("../base") succeeds with root .../foo/base |
| Scenarios.RemoteBaseCannotLeave | api/loader/fileloader_test.go:360-363 | from there New("../../../highBase") fails, and the error says "base '/whatever/highBase' is outside '/whatever/someClone'" |
| Scenarios.LocalReachesGitBase | api/loader/fileloader_test.go:366-382 | a local loader at /whatever prints that root, and New of the remote reference gives a loader rooted at .../someClone/foo/base from that clone |
| Scenarios.DirectRepoCycle | api/loader/fileloader_test.go:384-404 | MkdirAll of .../someClone/foo on the empty in-memory file system succeeds, a git-clone loader for .../foo is rooted at .../someClone/foo, and New of the same reference fails with "cycle detected" |
| Scenarios.IndirectFirst | api/loader/fileloader_test.go:415-423 | from the local loader, New(someRepo1) succeeds with the clone as root |
| Scenarios.IndirectSecond | api/loader/fileloader_test.go:425-426 | then New(someRepo2) succeeds: a different repository is no cycle |
| Scenarios.IndirectCycle | api/loader/fileloader_test.go:428-430 | then New(someRepo1) again fails with "cycle detected" |
| Scenarios.RepoOfInjective | api/loader/fileloader_test.go:419-420 | different repository names name different repositories |
| Scenarios.LoadHttpDirFile | api/loader/fileloader_test.go:450-464 | the loader at "/" over the one-file file system loads http/file.yaml locally, with "file content", whatever the client |
| Scenarios.LoadThroughClient | api/loader/fileloader_test.go:477-492 | an http(s) URL whose client answers 200 loads that body, asking for exactly that URL once |
| Scenarios.LoadExampleUrls | api/loader/fileloader_test.go:466-492 | the http and https example URLs load "http content" and "https content" |
| Scenarios.LoadOtherScheme | api/loader/fileloader_test.go:494-509 | a URL of any other scheme fails as unsupported, and no request is made |
| Scenarios.LoadUnsupportedScheme | api/loader/fileloader_test.go:494-509 | httpsnotreal://example.com/resource.yaml fails as unsupported, and no request is made |

## Left out

- `api/loader/fileloader.go` is not part of this model. The order of the checks in `New` is a choice the tests allow: empty reference, then remote or local; for a local one, directory, then clone boundary, then root cycle. No test has a reference that fails both the clone boundary and the root-cycle check, so which of the two errors comes first is not fixed by them.
- Real disk, temporary directories, git and the network are not modelled. The file systems are in-memory maps, and `t.TempDir()` is any fresh empty directory. A git clone is a `DoNothingCloner` directory; cloning with the git binary is modelled as a failure. The HTTP client is a map from URL to response.
- `Cleanup()` of clone directories is left out: there is nothing to remove in the model.
- Symlinks are resolved only at the last component of a path, up to 255 links. A link in the middle of a path is not followed.
- `ParseRepoSpec`: only `github.com/org/repo[/path]` references are recognised. The other hosts, the `?ref=` and `//` forms and `.git` suffixes of the real parser are not modelled.
- `Loader.Classify`: schemes are compared case-sensitively.
- `Paths.Join`: an absolute reference is read from "/", replacing the root. Go's `filepath.Join` would append it to the root instead (`/foo/project/subdir1` joined with `/foo/project` gives `/foo/project/subdir1/foo/project`). The tests at fileloader_test.go:124-129 only require an error, which both readings give there.
- `Loader.New`: because of that rule, an absolute reference to an existing directory that is neither visited nor above a visited root is accepted. For example, `/foo/project/subdir2` from the loader at `/foo/project/subdir1` succeeds. No test fixes this case.
- `Loader.NewLoaderOrDie`: where the source ends the process on failure, the model returns a `Failure` naming the error.
- `Loader.NewLoaderOrDie`: a relative path is read from "/". On disk it would be read from the working directory. The tests only pass absolute temporary directories.
- `Git.ParseRawRoundTrip`: printing a spec normalises its path ("a/", "./a" and "a//b" print as "a" and "a/b"). The real spec keeps the raw string, so the model's `Raw()` equals the input only for canonical references; `Git.ParseOfRaw` states what holds for every parsed reference.
- `FileSys.FileSystem.WriteFile`: creates missing parent directories, as the in-memory file system does. A write on disk (`os.WriteFile`) does not. The only on-disk writes are in `Fixtures.CommonSetup`, where it requires the temporary directory to exist, and every parent then exists before each write.
- `Loader.New`: a base reached by local navigation is not itself checked against the load restriction; test line 329 needs `../../../highBase` to succeed.
- `Loader.New`: child loaders get no HTTP client, because `newLoaderAtConfirmedDir` and `newLoaderAtGitClone` take none.
- `Loader.Covers`: a repo cycle is the same repository with a path in the repo at or above, compared by components. The real comparison of raw strings is not modelled.
- `Loader.Load`: an http(s) URL with no client fails with `NoHttpClient`. Only status 200 counts as success, not every 2xx.
- `LoaderLemmas.NewKeepsCloneBoundary`: says nothing about symlinks inside a clone that point outside it, since `Load` does not check the clone boundary.
- `Scenarios.GitCloneLoader`: the kustomization file is written as `kustomization.yaml`, the usual default name; nothing reads it.
- The scenario lemmas are generic over the test's names wherever the names do not matter. Literal paths such as `/whatever/someClone` are any segments satisfying the inequalities the test relies on (`base` differs from `overlay`, `highBase` from `someClone`).
