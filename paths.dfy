/** POSIX path manipulation as the plugins use it: `os.path.join` and the
    head half of `os.path.split`, both on plain strings with '/' as the only
    separator. */
module PathOps {

  type Path = string

  predicate IsAbsolute(p: Path) {
    |p| > 0 && p[0] == '/'
  }

  /** True when `s` contains no separator at all (a single path component). */
  predicate NoSep(s: string) {
    forall k | 0 <= k < |s| :: s[k] != '/'
  }

  predicate AllSeps(s: string) {
    forall k | 0 <= k < |s| :: s[k] == '/'
  }

  /** `a` made ready for appending a relative component: a '/' is added
      unless `a` is empty or already ends with one. */
  function AsDir(a: Path): Path {
    if a == "" || a[|a| - 1] == '/' then a else a + "/"
  }

  /** `os.path.join(a, b)`: an absolute `b` discards `a`; otherwise `b` is
      appended after exactly the separator `a` still lacks. */
  function Join(a: Path, b: Path): Path {
    if IsAbsolute(b) then b else AsDir(a) + b
  }

  /** The index just past the last separator of `p`, 0 when there is none
      (`p.rfind('/') + 1`). */
  function LastSepEnd(p: Path): (i: nat)
    ensures i <= |p|
    ensures i > 0 ==> p[i - 1] == '/'
    ensures NoSep(p[i..])
  {
    if p == "" then 0
    else if p[|p| - 1] == '/' then |p|
    else LastSepEnd(p[..|p| - 1])
  }

  /** `s.rstrip('/')`. */
  function StripTrailingSeps(s: string): (r: string)
    ensures r <= s
    ensures r == "" || r[|r| - 1] != '/'
    ensures AllSeps(s[|r|..])
  {
    if s != "" && s[|s| - 1] == '/' then StripTrailingSeps(s[..|s| - 1]) else s
  }

  /** The head returned by `os.path.split(p)`: everything up to the last
      separator, with trailing separators removed unless the head consists
      of separators only (the root). */
  function SplitHead(p: Path): (r: Path)
    ensures r <= p
    ensures |r| <= LastSepEnd(p)
    ensures r == "" <==> LastSepEnd(p) == 0
    ensures r == "" || r[|r| - 1] != '/' || AllSeps(r)
  {
    var head := p[..LastSepEnd(p)];
    if head != "" && !AllSeps(head) then
      StripTrailingSeps(head)
    else
      head
  }

  /** Splitting a file path built by `Join` gives the directory back: the
      head of `d/name` is `d` when `name` is a single component and `d` does
      not end with a separator. */
  lemma {:induction false} SplitHeadOfJoin(d: Path, name: string)
    requires NoSep(name) && name != ""
    requires d == "" || d[|d| - 1] != '/'
    ensures SplitHead(Join(d, name)) == d
  {
    var p := Join(d, name);
    if d == "" {
      assert p == name;
      LastSepEndOfNoSep(name);
    } else {
      assert p == d + "/" + name;
      LastSepEndAfter(d + "/", name);
      assert p[..LastSepEnd(p)] == d + "/";
      assert !AllSeps(d + "/") by { assert (d + "/")[|d| - 1] != '/'; }
      assert StripTrailingSeps(d + "/") == StripTrailingSeps((d + "/")[..|d|]);
      assert (d + "/")[..|d|] == d;
    }
  }

  lemma {:induction false} LastSepEndOfNoSep(s: string)
    requires NoSep(s)
    ensures LastSepEnd(s) == 0
  {
    if s != "" {
      assert s[|s| - 1] != '/';
      LastSepEndOfNoSep(s[..|s| - 1]);
    }
  }

  /** The last separator of `a + s` lies in `a` when `a` ends with one and
      `s` has none. */
  lemma {:induction false} LastSepEndAfter(a: string, s: string)
    requires a != "" && a[|a| - 1] == '/' && NoSep(s)
    ensures LastSepEnd(a + s) == |a|
    decreases |s|
  {
    if s == "" {
      assert a + s == a;
    } else {
      assert (a + s)[|a + s| - 1] == s[|s| - 1];
      assert (a + s)[..|a + s| - 1] == a + s[..|s| - 1];
      LastSepEndAfter(a, s[..|s| - 1]);
    }
  }

  /** Joining two relative names onto the same directory yields the same path
      only when the names are equal. */
  lemma JoinInjective(d: Path, n1: string, n2: string)
    requires !IsAbsolute(n1) && !IsAbsolute(n2)
    requires Join(d, n1) == Join(d, n2)
    ensures n1 == n2
  {
    var p := AsDir(d);
    assert Join(d, n1)[|p|..] == n1;
    assert Join(d, n2)[|p|..] == n2;
  }

  /** Files under two sibling directories `d/f1` and `d/f2` never share a
      path when the directory names differ at some position `k` inside both
      names and the file names are relative. */
  lemma {:induction false} JoinDiverges(d: Path, f1: string, f2: string, n1: string, n2: string, k: nat)
    requires NoSep(f1) && NoSep(f2)
    requires k < |f1| && k < |f2| && f1[k] != f2[k]
    requires !IsAbsolute(n1) && !IsAbsolute(n2)
    ensures Join(Join(d, f1), n1) != Join(Join(d, f2), n2)
  {
    var p := AsDir(d);
    ChildPath(d, f1, n1);
    ChildPath(d, f2, n2);
    assert (p + (f1 + "/" + n1))[|p| + k] == f1[k];
    assert (p + (f2 + "/" + n2))[|p| + k] == f2[k];
  }

  /** A file under subdirectory `f` of `d` is never itself a subdirectory
      `g` of `d`: its path has a '/' where `g` has none, or is longer. */
  lemma ChildIsNoSibling(d: Path, f: string, g: string, n: string)
    requires NoSep(f) && f != "" && NoSep(g) && g != "" && !IsAbsolute(n)
    ensures Join(Join(d, f), n) != Join(d, g)
  {
    var p := AsDir(d);
    var c := p + (f + "/" + n);
    ChildPath(d, f, n);
    assert c[|p| + |f|] == '/';
    assert Join(d, g) == p + g;
    assert |g| <= |f| ==> |p + g| < |c|;
    assert |f| < |g| ==> (p + g)[|p| + |f|] == g[|f|];
  }

  /** The path of file `n` in subdirectory `f` of `d`, spelled out. */
  lemma ChildPath(d: Path, f: string, n: string)
    requires NoSep(f) && f != "" && !IsAbsolute(n)
    ensures Join(Join(d, f), n) == AsDir(d) + (f + "/" + n)
  {
    var q := AsDir(d) + f;
    assert q[|q| - 1] == f[|f| - 1];
    assert AsDir(q) == q + "/";
  }
}
