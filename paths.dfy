/**
 * The path algebra the loader relies on: cleaned absolute paths, joining a
 * reference to a root and cleaning the result (".", "..", repeated and
 * trailing separators), printing a path, and the directory-boundary-aware
 * "in or below" test of ConfirmedDir.HasPrefix.
 */
module Paths {

  const Separator: char := '/'

  predicate NoSeparator(s: string) {
    Separator !in s
  }

  predicate NoSeparators(pieces: seq<string>) {
    forall i :: 0 <= i < |pieces| ==> NoSeparator(pieces[i])
  }

  /** One component of a cleaned path: never empty, never "." or "..", no separator. */
  type Segment = s: string | s != "" && s != "." && s != ".." && NoSeparator(s) witness "a"

  /** A cleaned absolute path, as the list of its components; [] is "/". */
  type Path = seq<Segment>

  /** The pieces of s between separators, empty pieces included (strings.Split(s, "/")). */
  function Split(s: string): (pieces: seq<string>)
    ensures |pieces| >= 1
  {
    if s == [] then [""]
    else
      var rest := Split(s[1..]);
      if s[0] == Separator then [""] + rest
      else [[s[0]] + rest[0]] + rest[1..]
  }

  /** No piece of a split holds a separator. */
  lemma {:induction false} SplitNoSeparators(s: string)
    ensures NoSeparators(Split(s))
    decreases |s|
  {
    if s != [] {
      SplitNoSeparators(s[1..]);
      var rest := Split(s[1..]);
      if s[0] != Separator {
        assert Separator !in rest[0];
        assert Separator !in [s[0]] + rest[0];
      }
    }
  }

  /** The directory holding p; the root is its own parent. */
  function Parent(p: Path): (q: Path)
    ensures q <= p
    ensures p != [] ==> |q| == |p| - 1
  {
    if p == [] then [] else p[..|p| - 1]
  }

  /** Applies one piece of a path to a directory, as cleaning does. */
  function Step(dir: Path, piece: string): Path
    requires NoSeparator(piece)
  {
    if piece == "" || piece == "." then dir
    else if piece == ".." then Parent(dir)
    else dir + [piece]
  }

  /** The cleaned form of dir followed by the pieces, read left to right. */
  function Clean(dir: Path, pieces: seq<string>): Path
    requires NoSeparators(pieces)
    decreases |pieces|
  {
    if pieces == [] then dir else Clean(Step(dir, pieces[0]), pieces[1..])
  }

  predicate IsAbs(ref: string) {
    |ref| > 0 && ref[0] == Separator
  }

  /** The cleaned path a reference names from root; an absolute reference ignores root. */
  function Join(root: Path, ref: string): Path {
    SplitNoSeparators(ref);
    if IsAbs(ref) then Clean([], Split(ref)) else Clean(root, Split(ref))
  }

  /** Each component preceded by a separator: "/a/b" for [a, b], "" for []. */
  function Slashed(p: Path): string {
    if p == [] then "" else [Separator] + p[0] + Slashed(p[1..])
  }

  /** How a path is printed: "/" for the root, "/a/b" otherwise. */
  function Render(p: Path): (s: string)
    ensures |s| > 0 && s[0] == Separator
  {
    if p == [] then [Separator] else Slashed(p)
  }

  /** strings.HasPrefix(s, pre). */
  predicate StartsWith(s: string, pre: string) {
    |pre| <= |s| && s[..|pre|] == pre
  }

  /** Being in or below dir: dir's components begin p's. */
  predicate InOrBelow(p: Path, dir: Path) {
    dir <= p
  }

  /**
   * ConfirmedDir.HasPrefix as a test on printed paths: true when prefix is
   * "/", equals d, or is followed in d by a separator.
   */
  predicate HasPrefix(d: Path, prefix: Path) {
    Render(prefix) == [Separator] || prefix == d || StartsWith(Render(d), Render(prefix) + [Separator])
  }

  // ---------------------------------------------------------------------
  // Splitting

  /** Split unfolded once, at the first character. */
  lemma SplitCons(c: char, t: string)
    ensures Split([c] + t) == if c == Separator then [""] + Split(t) else [[c] + Split(t)[0]] + Split(t)[1..]
  {
    assert ([c] + t)[0] == c;
    assert ([c] + t)[1..] == t;
  }

  /** One step of SplitConcat: a separator in front of the left side. */
  lemma SplitConcatSeparator(a: string, b: string)
    requires Split(a + [Separator] + b) == Split(a) + Split(b)
    ensures Split([Separator] + a + [Separator] + b) == Split([Separator] + a) + Split(b)
  {
    var s := a + [Separator] + b;
    assert [Separator] + a + [Separator] + b == [Separator] + s;
    SplitCons(Separator, s);
    SplitCons(Separator, a);
    PrependEmpty(Split(a), Split(b));
  }

  lemma PrependEmpty(r: seq<string>, q: seq<string>)
    ensures [""] + (r + q) == ([""] + r) + q
  {
  }

  /** Putting a character in front of the first of two lists of pieces. */
  lemma PrependToFirst(c: char, r: seq<string>, q: seq<string>)
    requires |r| >= 1
    ensures [[c] + (r + q)[0]] + (r + q)[1..] == ([[c] + r[0]] + r[1..]) + q
  {
    assert (r + q)[0] == r[0];
    assert (r + q)[1..] == r[1..] + q;
  }

  /** One step of SplitConcat: another character in front of the left side. */
  lemma SplitConcatChar(c: char, a: string, b: string)
    requires c != Separator
    requires Split(a + [Separator] + b) == Split(a) + Split(b)
    ensures Split([c] + a + [Separator] + b) == Split([c] + a) + Split(b)
  {
    var s := a + [Separator] + b;
    var ra, rb := Split(a), Split(b);
    assert [c] + a + [Separator] + b == [c] + s;
    calc {
      Split([c] + s);
    == { SplitCons(c, s); }
      [[c] + Split(s)[0]] + Split(s)[1..];
    ==
      [[c] + (ra + rb)[0]] + (ra + rb)[1..];
    == { PrependToFirst(c, ra, rb); }
      ([[c] + ra[0]] + ra[1..]) + rb;
    == { SplitCons(c, a); }
      Split([c] + a) + rb;
    }
  }

  /** Splitting at an inner separator splits each side on its own. */
  lemma {:induction false} SplitConcat(a: string, b: string)
    ensures Split(a + [Separator] + b) == Split(a) + Split(b)
    decreases |a|
  {
    if a == [] {
      assert a + [Separator] + b == [Separator] + b;
      SplitCons(Separator, b);
    } else {
      SplitConcat(a[1..], b);
      if a[0] == Separator {
        SplitConcatSeparator(a[1..], b);
      } else {
        SplitConcatChar(a[0], a[1..], b);
      }
      assert [a[0]] + a[1..] == a;
    }
  }

  /** A word without separators joins the first piece of whatever follows it. */
  lemma {:induction false} SplitWordThen(w: string, t: string)
    requires NoSeparator(w)
    ensures Split(w + t) == [w + Split(t)[0]] + Split(t)[1..]
    decreases |w|
  {
    if w != [] {
      assert w[0] in w;
      assert (w + t)[0] == w[0];
      assert (w + t)[1..] == w[1..] + t;
      assert NoSeparator(w[1..]) by {
        forall i | 0 <= i < |w[1..]| ensures w[1..][i] != Separator {
          assert w[1..][i] == w[i + 1];
        }
      }
      SplitWordThen(w[1..], t);
      assert [w[0]] + (w[1..] + Split(t)[0]) == w + Split(t)[0];
    } else {
      assert w + t == t;
      assert w + Split(t)[0] == Split(t)[0];
      assert [Split(t)[0]] + Split(t)[1..] == Split(t);
    }
  }

  lemma {:induction false} SplitSlashed(p: Path)
    ensures Split(Slashed(p)) == [""] + p
    decreases |p|
  {
    if p != [] {
      var t := Slashed(p[1..]);
      SplitSlashed(p[1..]);
      assert Slashed(p) == [Separator] + (p[0] + t);
      assert Slashed(p)[1..] == p[0] + t;
      SplitWordThen(p[0], t);
      assert Split(t)[0] == "";
      assert Split(t)[1..] == p[1..];
      assert p[0] + Split(t)[0] == p[0];
      assert [p[0]] + p[1..] == p;
    }
  }

  // ---------------------------------------------------------------------
  // Cleaning and joining

  /** Cleaning reads its pieces left to right. */
  lemma {:induction false} CleanConcat(dir: Path, x: seq<string>, y: seq<string>)
    requires NoSeparators(x) && NoSeparators(y)
    ensures NoSeparators(x + y)
    ensures Clean(dir, x + y) == Clean(Clean(dir, x), y)
    decreases |x|
  {
    if x == [] {
      assert x + y == y;
    } else {
      assert (x + y)[0] == x[0];
      assert (x + y)[1..] == x[1..] + y;
      CleanConcat(Step(dir, x[0]), x[1..], y);
    }
  }

  /** Components of a cleaned path are appended unchanged. */
  lemma {:induction false} CleanSegments(dir: Path, p: Path)
    ensures Clean(dir, p) == dir + p
    decreases |p|
  {
    if p != [] {
      var next := dir + [p[0]];
      assert Clean(dir, p) == Clean(next, p[1..]) by {
        assert Step(dir, p[0]) == next;
      }
      CleanSegments(next, p[1..]);
      assert next + p[1..] == dir + p by {
        assert p == [p[0]] + p[1..];
      }
    }
  }

  /** A printed path reads back as itself, from any root. */
  lemma RenderJoin(root: Path, p: Path)
    ensures Join(root, Render(p)) == p
  {
    if p == [] {
      JoinSlash(root);
    } else {
      SplitSlashed(p);
      CleanSegments([], p);
    }
  }

  /** Two paths that print alike are the same path. */
  lemma RenderInjective(p: Path, q: Path)
    requires Render(p) == Render(q)
    ensures p == q
  {
    RenderJoin([], p);
    RenderJoin([], q);
  }

  /** A trailing separator does not change the path named (filepath.Clean strips it). */
  lemma JoinTrailingSlash(root: Path, ref: string)
    requires ref != ""
    ensures Join(root, ref + [Separator]) == Join(root, ref)
  {
    SplitConcat(ref, "");
    assert ref + [Separator] + "" == ref + [Separator];
    var dir := if IsAbs(ref) then [] else root;
    SplitNoSeparators(ref);
    SplitNoSeparators("");
    CleanConcat(dir, Split(ref), [""]);
    assert IsAbs(ref + [Separator]) == IsAbs(ref);
  }

  /**
   * An absolute reference names the same path from every root. This is
   * Join's own absolute branch, stated once for the lemmas that use it.
   */
  lemma JoinAbsolute(root1: Path, root2: Path, ref: string)
    requires IsAbs(ref)
    ensures Join(root1, ref) == Join(root2, ref)
  {
  }

  /** Joining a then b is joining "a/b" (b relative, a not empty). */
  lemma JoinThenJoin(root: Path, a: string, b: string)
    requires a != "" && !IsAbs(b)
    ensures Join(Join(root, a), b) == Join(root, a + [Separator] + b)
  {
    SplitConcat(a, b);
    var dir := if IsAbs(a) then [] else root;
    SplitNoSeparators(a);
    SplitNoSeparators(b);
    CleanConcat(dir, Split(a), Split(b));
    assert (a + [Separator] + b)[0] == a[0];
  }

  /** A word then separated components: "w/a/b" names w, a and b below root. */
  lemma JoinWords(root: Path, w: Segment, p: Path)
    ensures Join(root, w + Slashed(p)) == root + [w] + p
  {
    var rest := Slashed(p);
    assert Split(w + rest) == [w] + p by {
      SplitWordThen(w, rest);
      SplitSlashed(p);
      assert w + Split(rest)[0] == w + "" == w;
      assert Split(rest)[1..] == p;
    }
    assert !IsAbs(w + rest) by {
      CharOfWord(w, 0);
    }
    CleanSegments(root, [w] + p);
    assert root + ([w] + p) == root + [w] + p;
  }

  /** A doubled separator is one: "w//a/b" (the shape of "https://host/x") names w, a and b below root. */
  lemma JoinDoubleSlash(root: Path, w: Segment, p: Path)
    ensures Join(root, w + [Separator] + Slashed(p)) == root + [w] + p
  {
    var rest := Slashed(p);
    SplitConcat(w, rest);
    SplitWord(w);
    SplitSlashed(p);
    SplitNoSeparators(rest);
    CleanConcat(root, [w], [""] + p);
    CleanOne(root, w);
    var below := root + [w];
    assert Clean(below, [""] + p) == Clean(below, p) by {
      assert ([""] + p)[0] == "" && ([""] + p)[1..] == p;
    }
    CleanSegments(below, p);
    CharOfWord(w, 0);
    assert (w + [Separator] + rest)[0] == w[0];
  }

  /** Going up first: "../t" from root is t from root's parent. */
  lemma JoinUp(root: Path, t: string)
    requires !IsAbs(t)
    ensures Join(root, ".." + [Separator] + t) == Join(Parent(root), t)
  {
    JoinThenJoin(root, "..", t);
    JoinDotDot(root);
  }

  /** A word without separators is a single piece. */
  lemma SplitWord(w: string)
    requires NoSeparator(w)
    ensures Split(w) == [w]
  {
    SplitWordThen(w, "");
    assert w + "" == w;
  }

  lemma CleanOne(dir: Path, piece: string)
    requires NoSeparator(piece)
    ensures Clean(dir, [piece]) == Step(dir, piece)
  {
    assert [piece][1..] == [];
  }

  /** A single component descends into it. */
  lemma JoinSegment(root: Path, s: Segment)
    ensures Join(root, s) == root + [s]
  {
    SplitWord(s);
    CleanOne(root, s);
  }

  /** "." names the root itself. */
  lemma JoinDot(root: Path)
    ensures Join(root, ".") == root
  {
    SplitWord(".");
    CleanOne(root, ".");
  }

  /** ".." names the parent of the root ("/" for "/"). */
  lemma JoinDotDot(root: Path)
    ensures Join(root, "..") == Parent(root)
  {
    SplitWord("..");
    CleanOne(root, "..");
  }

  /** "/" names the root of the file system. */
  lemma JoinSlash(root: Path)
    ensures Join(root, [Separator]) == []
  {
    SplitConcat("", "");
    assert "" + [Separator] + "" == [Separator];
    CleanConcat([], [""], [""]);
    CleanOne([], "");
    assert [""] + [""] == ["", ""];
  }

  // ---------------------------------------------------------------------
  // In or below

  lemma {:induction false} SlashedConcat(a: Path, b: Path)
    ensures Slashed(a + b) == Slashed(a) + Slashed(b)
    decreases |a|
  {
    if a == [] {
      assert a + b == b;
    } else {
      assert (a + b)[0] == a[0];
      assert (a + b)[1..] == a[1..] + b;
      SlashedConcat(a[1..], b);
    }
  }

  /** Slashed unfolded once. */
  lemma SlashedCons(a: Segment, p: Path)
    ensures Slashed([a] + p) == [Separator] + a + Slashed(p)
  {
    assert ([a] + p)[0] == a;
    assert ([a] + p)[1..] == p;
  }

  lemma SlashedLength(p: Path)
    requires p != []
    ensures |Slashed(p)| >= 2 && Slashed(p)[0] == Separator
  {
  }

  lemma CharOfPrefix(s: string, pre: string, i: int)
    ensures StartsWith(s, pre) && 0 <= i < |pre| ==> s[i] == pre[i]
  {
    if StartsWith(s, pre) && 0 <= i < |pre| {
      assert s[..|pre|][i] == s[i];
    }
  }

  lemma StartsWithTail(c: char, s: string, pre: string)
    ensures StartsWith([c] + s, [c] + pre) ==> StartsWith(s, pre)
  {
    if StartsWith([c] + s, [c] + pre) {
      assert s[..|pre|] == ([c] + s)[..|[c] + pre|][1..];
    }
  }

  lemma CharOfWord(w: string, i: int)
    ensures NoSeparator(w) && 0 <= i < |w| ==> w[i] != Separator
  {
    if 0 <= i < |w| {
      assert w[i] in w;
    }
  }

  /** Two words followed by separators (or the end) agree as far as the shorter reaches only if they are equal. */
  lemma WordBoundary(x: string, y: string, t: string, u: string)
    requires NoSeparator(x) && NoSeparator(y)
    requires |t| > 0 && t[0] == Separator
    requires u == [] || u[0] == Separator
    requires StartsWith(y + u, x + t)
    ensures x == y && StartsWith(u, t)
  {
    if |x| < |y| {
      CharOfPrefix(y + u, x + t, |x|);
      CharOfWord(y, |x|);
      assert false;
    }
    if |x| > |y| {
      CharOfPrefix(y + u, x + t, |y|);
      CharOfWord(x, |y|);
      assert false;
    }
    var w := (y + u)[..|x + t|];
    assert w == x + t;
    assert x == w[..|x|];
    assert t == w[|x|..];
  }

  /** If a's printed form followed by a separator begins d's, then a lies strictly above d. */
  lemma {:induction false} SlashedPrefix(a: Path, d: Path)
    requires a != []
    requires StartsWith(Slashed(d), Slashed(a) + [Separator])
    ensures a <= d && a != d
    decreases |a|
  {
    var t := Slashed(a[1..]) + [Separator];
    assert Slashed(a) + [Separator] == [Separator] + (a[0] + t);
    assert |Slashed(d)| > 0;
    assert d != [];
    var u := Slashed(d[1..]);
    assert Slashed(d) == [Separator] + (d[0] + u);
    StartsWithTail(Separator, d[0] + u, a[0] + t);
    assert u == [] || u[0] == Separator;
    WordBoundary(a[0], d[0], t, u);
    if a[1..] == [] {
      assert u != [];
      assert d[1..] != [];
    } else {
      SlashedPrefix(a[1..], d[1..]);
    }
    assert a == [a[0]] + a[1..];
    assert d == [d[0]] + d[1..];
  }

  /** A path strictly below a non-root prefix prints as the prefix, a separator and more. */
  lemma BelowStartsWith(d: Path, prefix: Path)
    requires prefix != [] && prefix <= d && prefix != d
    ensures StartsWith(Render(d), Render(prefix) + [Separator])
  {
    var rest := d[|prefix|..];
    assert d == prefix + rest;
    SlashedConcat(prefix, rest);
    assert Slashed(rest) == [Separator] + (rest[0] + Slashed(rest[1..]));
    assert Render(d) == (Slashed(prefix) + [Separator]) + (rest[0] + Slashed(rest[1..]));
  }

  /** A printed prefix followed by a separator only begins printed paths strictly below it. */
  lemma StartsWithBelow(d: Path, prefix: Path)
    requires prefix != []
    requires StartsWith(Render(d), Render(prefix) + [Separator])
    ensures prefix <= d && prefix != d
  {
    SlashedLength(prefix);
    if d == [] {
      assert false;
    }
    SlashedPrefix(prefix, d);
  }

  /** ConfirmedDir.HasPrefix respects directory boundaries: it is exactly "in or below". */
  lemma HasPrefixIsInOrBelow(d: Path, prefix: Path)
    ensures HasPrefix(d, prefix) <==> InOrBelow(d, prefix)
  {
    if prefix != [] {
      SlashedLength(prefix);
      assert Render(prefix) != [Separator];
      if prefix != d {
        if prefix <= d {
          BelowStartsWith(d, prefix);
        }
        if StartsWith(Render(d), Render(prefix) + [Separator]) {
          StartsWithBelow(d, prefix);
        }
      }
    }
  }
}
