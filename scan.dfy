/** What the program's fixed regular expressions are built from, read the way
    Python's `re.match` reads them: `.` is any character except '\n', `$`
    holds at the end of the text or just before a final '\n', and a greedy
    leading `^.*` settles on the last position where the rest of the pattern
    fits. */
module Scan {
  import opened PyStr

  /** No '\n' in s[from..to]: the stretch a `.*` can cover. */
  predicate NoNewlineIn(s: string, from: int, to: int)
    requires 0 <= from <= to <= |s|
  {
    forall k :: from <= k < to ==> s[k] != '\n'
  }

  /** A trailing `.*$` matches from position i. */
  predicate LineEndFrom(s: string, i: int)
    requires 0 <= i
  {
    forall k :: i <= k < |s| - 1 ==> s[k] != '\n'
  }

  /** The literal w at position i, compared as IGNORECASE does: both sides
      lower-cased. */
  predicate LiteralAt(w: string, s: string, i: int)
    requires 0 <= i
  {
    i + |w| <= |s| && forall k :: 0 <= k < |w| ==> LowerChar(s[i + k]) == LowerChar(w[k])
  }

  /** The end of the longest run of characters satisfying p from i: where a
      greedy `[...]*` or `\d+` stops. */
  function RunEnd(s: string, i: int, p: char -> bool): (r: int)
    requires 0 <= i <= |s|
    ensures i <= r <= |s|
    ensures forall k :: i <= k < r ==> p(s[k])
    ensures r < |s| ==> !p(s[r])
    decreases |s| - i
  {
    if i < |s| && p(s[i]) then RunEnd(s, i + 1, p) else i
  }

  /** A run that stops at j ends at j. */
  lemma {:induction false} RunEndAt(s: string, i: int, j: int, p: char -> bool)
    requires 0 <= i <= j <= |s|
    requires forall k :: i <= k < j ==> p(s[k])
    requires j < |s| ==> !p(s[j])
    ensures RunEnd(s, i, p) == j
    decreases j - i
  {
    if i < j {
      RunEndAt(s, i + 1, j, p);
    }
  }

  /** The largest k <= i with ok(k), or -1 when there is none. */
  function LastWhere(i: int, ok: int -> bool): (r: int)
    requires i >= -1
    ensures -1 <= r <= i
    ensures r >= 0 ==> ok(r)
    ensures forall k :: r < k <= i ==> !ok(k)
    decreases i + 1
  {
    if i < 0 then -1 else if ok(i) then i else LastWhere(i - 1, ok)
  }

  /** A position that fits, with none after it up to i, is what LastWhere finds. */
  lemma LastWhereIs(i: int, ok: int -> bool, p: int)
    requires 0 <= p <= i && ok(p)
    requires forall k :: p < k <= i ==> !ok(k)
    ensures LastWhere(i, ok) == p
  {
  }

  /** The value of the n digits at i. */
  function DigitsAt(s: string, i: int, n: int): (r: nat)
    requires 0 <= i && 0 <= n && i + n <= |s|
    requires forall k :: i <= k < i + n ==> IsDigit(s[k])
  {
    DigitsValue(s[i..i + n])
  }
}
