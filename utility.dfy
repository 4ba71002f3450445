/** utility.py: splitting a file name at its last dot. (`unicode_to_ascii` is
    not part of this model.) */
module Utility {

  /** `s.rfind(c)`: the index of the last c in s, or -1. */
  function RFind(s: string, c: char): (r: int)
    ensures -1 <= r < |s|
    ensures r >= 0 ==> s[r] == c && forall j :: r < j < |s| ==> s[j] != c
    ensures r == -1 <==> c !in s
    decreases |s|
  {
    if |s| == 0 then -1
    else if s[|s| - 1] == c then |s| - 1
    else RFind(s[..|s| - 1], c)
  }

  /** `split_file_name(file)`: (base, extension) split at the last '.', or
      (file, '') when there is no '.' or the only last '.' is the first character. */
  function SplitFileName(file: string): (r: (string, string))
    ensures RFind(file, '.') <= 0 ==> r == (file, "")
    ensures RFind(file, '.') > 0 ==> r.0 + "." + r.1 == file && |r.0| == RFind(file, '.')
    ensures '.' !in r.1
  {
    var last := RFind(file, '.');
    if last > 0 then (file[0..last], file[last + 1..]) else (file, "")
  }

  /** `strip_extension(file)`: the base part of SplitFileName. */
  function StripExtension(file: string): (r: string)
    ensures r == SplitFileName(file).0
    ensures r <= file
    ensures |r| < |file| <==> RFind(file, '.') > 0
  {
    SplitFileName(file).0
  }

  /** A name ending in '.' (past index 0) has an empty extension and loses only that dot. */
  lemma SplitFileNameTrailingDot(base: string)
    requires |base| >= 1
    ensures SplitFileName(base + ".") == (base, "")
  {
    var f := base + ".";
    assert f[|f| - 1] == '.';
    assert f[..|f| - 1] == base;
  }

  /** A name with a non-empty '.'-free extension after a non-empty base splits back into them. */
  lemma SplitFileNameOfJoin(base: string, ext: string)
    requires |base| >= 1 && '.' !in ext
    ensures SplitFileName(base + "." + ext) == (base, ext)
  {
    var f := base + "." + ext;
    assert f[|base|] == '.';
    forall j | |base| < j < |f| ensures f[j] != '.' { assert f[j] == ext[j - |base| - 1]; }
    assert RFind(f, '.') == |base|;
    assert f[0..|base|] == base;
    assert f[|base| + 1..] == ext;
  }
}
