/**
 * The three functions of Python's `posixpath` (`os.path` on Linux) that the
 * pipeline uses, on strings, with '/' as the only separator.
 */
module PosixPath {

  predicate NoSep(s: string)
  {
    forall j :: 0 <= j < |s| ==> s[j] != '/'
  }

  predicate AllSeps(s: string)
  {
    forall j :: 0 <= j < |s| ==> s[j] == '/'
  }

  /** The position of the last separator among the first `k` characters of `p`, or -1. */
  function LastSepBefore(p: string, k: nat): (r: int)
    requires k <= |p|
    ensures -1 <= r < k
    ensures r >= 0 ==> p[r] == '/'
    ensures forall j :: r < j < k ==> p[j] != '/'
  {
    if k == 0 then -1
    else if p[k - 1] == '/' then k - 1
    else LastSepBefore(p, k - 1)
  }

  /** `p.rfind('/')`: the position of the last separator, or -1. */
  function RFindSep(p: string): (r: int)
    ensures -1 <= r < |p|
    ensures r >= 0 ==> p[r] == '/'
    ensures forall j :: r < j < |p| ==> p[j] != '/'
  {
    LastSepBefore(p, |p|)
  }

  /** The length of `s[..k]` without its trailing separators. */
  function StrippedLength(s: string, k: nat): (r: nat)
    requires k <= |s|
    ensures r <= k
    ensures r > 0 ==> s[r - 1] != '/'
    ensures forall j :: r <= j < k ==> s[j] == '/'
  {
    if k > 0 && s[k - 1] == '/' then StrippedLength(s, k - 1) else k
  }

  /** `s.rstrip('/')` */
  function RStripSeps(s: string): string
  {
    s[..StrippedLength(s, |s|)]
  }

  /** `os.path.basename(p)`: what follows the last separator. */
  function Basename(p: string): string
  {
    var start := RFindSep(p) + 1;
    seq(|p| - start, i requires 0 <= i < |p| - start => p[start + i])
  }

  /**
   * `os.path.dirname(p)`: what precedes the last separator, with trailing
   * separators stripped unless it consists of separators only.
   */
  function Dirname(p: string): string
  {
    var head := p[..RFindSep(p) + 1];
    if |head| > 0 && !AllSeps(head) then RStripSeps(head) else head
  }

  /**
   * `os.path.join(a, b)`: an absolute `b` replaces `a`; otherwise `b` is
   * appended, after a separator unless `a` is empty or already ends in one.
   * `os.path.join(a, b, c)` is `Join(Join(a, b), c)`.
   */
  function Join(a: string, b: string): string
  {
    if |b| > 0 && b[0] == '/' then b
    else if |a| == 0 || a[|a| - 1] == '/' then a + b
    else a + "/" + b
  }

  // ---------------------------------------------------------------------------

  /** A directory joined with a plain name ends in that name and not in a separator. */
  lemma JoinName(d: string, c: string)
    requires |c| > 0 && NoSep(c)
    ensures var p := Join(d, c);
            |p| > 0 && p[|p| - 1] != '/' && Basename(p) == c && p[..|p| - |c|] == (if |d| == 0 || d[|d| - 1] == '/' then d else d + "/")
  {
    var p := Join(d, c);
    var pre := if |d| == 0 || d[|d| - 1] == '/' then d else d + "/";
    assert p == pre + c;
    assert |pre| > 0 ==> p[|pre| - 1] == '/';
    assert forall j :: |pre| <= j < |p| ==> p[j] == c[j - |pre|];
    assert RFindSep(p) == |pre| - 1;
    assert p[..|p| - |c|] == pre;
  }

  /** Splitting a joined path gives back its two halves. */
  lemma SplitJoin(x: string, f: string)
    requires |x| > 0 && x[|x| - 1] != '/' && NoSep(f)
    ensures Dirname(Join(x, f)) == x
    ensures Basename(Join(x, f)) == f
  {
    var p := Join(x, f);
    assert p == x + "/" + f;
    assert p[|x|] == '/';
    assert forall j :: |x| < j < |p| ==> p[j] == f[j - |x| - 1];
    assert RFindSep(p) == |x|;
    var head := p[..|x| + 1];
    assert head == x + "/";
    assert !AllSeps(head) by {
      assert head[|x| - 1] != '/';
    }
    assert StrippedLength(head, |head|) == |x|;
  }

  /** The parent-directory name of `d/c/f` is `c`, for plain names `c` and `f`. */
  lemma ParentName(d: string, c: string, f: string)
    requires |c| > 0 && NoSep(c) && NoSep(f)
    ensures Basename(Dirname(Join(Join(d, c), f))) == c
  {
    JoinName(d, c);
    SplitJoin(Join(d, c), f);
  }

  /** Joining one directory with two relative names gives equal paths only for equal names. */
  lemma JoinInjective(d: string, f: string, g: string)
    requires NoSep(f) && NoSep(g) && Join(d, f) == Join(d, g)
    ensures f == g
  {
    if |f| > 0 { assert f[0] != '/'; }
    if |g| > 0 { assert g[0] != '/'; }
    var pre := if |d| == 0 || d[|d| - 1] == '/' then d else d + "/";
    assert Join(d, f) == pre + f && Join(d, g) == pre + g;
    assert f == (pre + f)[|pre|..] && g == (pre + g)[|pre|..];
  }
}
