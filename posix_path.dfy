/** The parts of Python's `posixpath` (`os.path` on a POSIX system) that the
    program uses: `split` and two-argument `join`. */
module PosixPath {
  import opened Utility

  predicate AllSlashes(s: string) { forall k :: 0 <= k < |s| ==> s[k] == '/' }

  /** `s.rstrip('/')`. */
  function RStripSlashes(s: string): (r: string)
    ensures r <= s
    ensures AllSlashes(s[|r|..])
    ensures r == [] || r[|r| - 1] != '/'
    decreases |s|
  {
    if |s| > 0 && s[|s| - 1] == '/' then RStripSlashes(s[..|s| - 1]) else s
  }

  /** `os.path.split(p)`: everything after the last '/' is the tail; the head
      keeps the rest, without trailing slashes unless it is all slashes. */
  function Split(p: string): (r: (string, string))
    ensures '/' !in r.1
    ensures r.0 <= p && |r.1| <= |p| && p[|p| - |r.1|..] == r.1
  {
    var i := RFind(p, '/') + 1;
    var head, tail := p[..i], p[i..];
    assert forall k :: 0 <= k < |tail| ==> tail[k] == p[i + k];
    if head != [] && !AllSlashes(head) then (RStripSlashes(head), tail) else (head, tail)
  }

  /** `os.path.join(a, b)`: b when it is absolute, otherwise a and b with one
      '/' between them unless a is empty or already ends in '/'. */
  function Join(a: string, b: string): (r: string)
    ensures |b| > 0 && b[0] == '/' ==> r == b
    ensures !(|b| > 0 && b[0] == '/') ==> a <= r && |b| <= |r| && r[|r| - |b|..] == b
  {
    if |b| > 0 && b[0] == '/' then b
    else if a == [] || a[|a| - 1] == '/' then a + b
    else a + "/" + b
  }

  /** A name without '/' splits into an empty head and itself. */
  lemma SplitPlainName(t: string)
    requires '/' !in t
    ensures Split(t) == ("", t)
  {
  }

  /** Splitting a relative name joined to a directory that does not end in
      '/' gives back the directory and the name. */
  lemma SplitJoin(d: string, t: string)
    requires '/' !in t && d != [] && d[|d| - 1] != '/'
    ensures Join(d, t) == d + "/" + t
    ensures Split(Join(d, t)) == (d, t)
  {
    var p := d + "/" + t;
    assert p[|d|] == '/';
    forall k | |d| < k < |p| ensures p[k] != '/' { assert p[k] == t[k - |d| - 1]; }
    assert RFind(p, '/') == |d|;
    assert p[..|d| + 1] == d + "/";
    assert p[|d| + 1..] == t;
    assert !AllSlashes(d + "/") by { assert (d + "/")[|d| - 1] == d[|d| - 1]; }
    assert (d + "/")[..|d|] == d;
    assert RStripSlashes(d + "/") == RStripSlashes(d) == d;
  }
}
