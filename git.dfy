/**
 * Remote repository references as the loader sees them: the parsed
 * reference (git.RepoSpec), the clone a cloner produces for it, and the
 * cloners the loader can be given.
 */
module Git {
  import opened Wrappers
  import opened Paths

  /** A parsed remote reference: the repository it names and the directory inside it. */
  datatype RepoSpec = RepoSpec(repo: string, pathInRepo: Path)
  {
    /** The reference written back out: repository, then the path inside it. */
    function Raw(): string {
      repo + Slashed(pathInRepo)
    }
  }

  /** A repository cloned into cloneDir on the local file system. */
  datatype Clone = Clone(spec: RepoSpec, cloneDir: Path)
  {
    /** RepoSpec.AbsPath: the directory the reference names inside the clone. */
    function AbsPath(): (p: Path)
      ensures InOrBelow(p, cloneDir)
      ensures |p| == |cloneDir| + |spec.pathInRepo|
    {
      cloneDir + spec.pathInRepo
    }
  }

  /**
   * DoNothingCloner(dir) reports the repository as already cloned into dir;
   * ClonerUsingGitExec runs git, which this model does not do.
   */
  datatype Cloner = DoNothingCloner(dir: Path) | ClonerUsingGitExec

  const GitHubHost: string := "github.com/"

  /**
   * NewRepoSpecFromURL for references of the form
   * github.com/<org>/<repo>[/<path>]; anything else is not a remote reference.
   */
  function ParseRepoSpec(s: string): (r: Option<RepoSpec>)
    ensures r.Some? ==> StartsWith(s, GitHubHost) && StartsWith(r.value.repo, GitHubHost)
    ensures !StartsWith(s, GitHubHost) ==> r.None?
  {
    if !StartsWith(s, GitHubHost) then None
    else
      var pieces := Split(s[|GitHubHost|..]);
      SplitNoSeparators(s[|GitHubHost|..]);
      if |pieces| < 2 || pieces[0] == "" || pieces[1] == "" then None
      else Some(RepoSpec(GitHubHost + pieces[0] + [Separator] + pieces[1], Clean([], pieces[2..])))
  }

  /** Parsing inverts writing a reference out: org, repo and path come back as they went in. */
  lemma {:induction false} ParseRepoSpecRaw(org: string, name: string, p: Path)
    requires org != "" && name != "" && NoSeparator(org) && NoSeparator(name)
    ensures ParseRepoSpec(GitHubHost + org + [Separator] + name + Slashed(p))
         == Some(RepoSpec(GitHubHost + org + [Separator] + name, p))
  {
    var s := GitHubHost + org + [Separator] + name + Slashed(p);
    assert StartsWith(s, GitHubHost) by {
      assert s[..|GitHubHost|] == GitHubHost;
    }
    var rest := s[|GitHubHost|..];
    assert rest == org + [Separator] + (name + Slashed(p));
    SplitConcat(org, name + Slashed(p));
    SplitWord(org);
    SplitWordThen(name, Slashed(p));
    SplitSlashed(p);
    var pieces := Split(rest);
    assert pieces == [org] + [name + ""] + p;
    assert name + "" == name;
    assert pieces[2..] == p;
    CleanSegments([], p);
    assert s[|GitHubHost|..] == rest;
    assert pieces[0] == org && pieces[1] == name;
    assert ParseRepoSpec(s) == Some(RepoSpec(GitHubHost + pieces[0] + [Separator] + pieces[1], Clean([], pieces[2..])));
    assert Clean([], pieces[2..]) == p;
    assert ParseRepoSpec(s) == Some(RepoSpec(GitHubHost + org + [Separator] + name, p));
  }

  /** A reference written in canonical form (clean path components) is the raw form of its spec. */
  lemma ParseRawRoundTrip(org: string, name: string, p: Path)
    requires org != "" && name != "" && NoSeparator(org) && NoSeparator(name)
    ensures var s := GitHubHost + org + [Separator] + name + Slashed(p);
            ParseRepoSpec(s).Some? && ParseRepoSpec(s).value.Raw() == s
  {
    ParseRepoSpecRaw(org, name, p);
  }

  /**
   * Any reference that parses, however its path is written ("a/", "./a",
   * "a//b"), prints back in canonical form, and that form parses to the
   * same spec again.
   */
  lemma ParseOfRaw(s: string)
    requires ParseRepoSpec(s).Some?
    ensures var spec := ParseRepoSpec(s).value;
      ParseRepoSpec(spec.Raw()) == Some(spec)
  {
    var pieces := Split(s[|GitHubHost|..]);
    SplitNoSeparators(s[|GitHubHost|..]);
    var org, name, p := pieces[0], pieces[1], Clean([], pieces[2..]);
    assert NoSeparator(org) && NoSeparator(name);
    var spec := ParseRepoSpec(s).value;
    assert spec == RepoSpec(GitHubHost + org + [Separator] + name, p);
    ParseRepoSpecRaw(org, name, p);
  }
}
