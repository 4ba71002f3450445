/** The three fixed patterns of file_matcher.py that read an episode's
    identity out of a path, each as a recogniser at one position plus the
    greedy `^.*` search for the last position that fits, and
    `get_four_digit_year`. Every pattern is compiled with IGNORECASE. */
module FilePatterns {
  import opened Wrappers
  import opened PyStr
  import opened Scan

  // ---------------------------------------------------------------- years

  /** `get_four_digit_year`. */
  function FourDigitYear(raw: int): (r: int)
    ensures raw > 99 ==> r == raw
    ensures 40 < raw <= 99 ==> r == raw + 1900
    ensures raw <= 40 ==> r == raw + 2000
  {
    if raw > 99 then raw else if raw > 40 then raw + 1900 else raw + 2000
  }

  /** A two-digit year names the one year of 1941..2040 that ends in it. */
  lemma FourDigitYearWindow(raw: int, y: int)
    requires 0 <= raw <= 99
    requires 1941 <= y <= 2040 && y % 100 == raw
    ensures FourDigitYear(raw) == y
  {
  }

  // ---------------------------------------------------------------- by episode

  /** `[-_x\.\ ]` under IGNORECASE. */
  predicate IsEpisodeSep(c: char)
  {
    var l := LowerChar(c);
    l == '-' || l == '_' || l == 'x' || l == '.' || l == ' '
  }

  /** `s(\d+)[-_x\.\ ]?e(\d+).*$` at position i. Each `\d+` takes its whole
      run of digits: a shorter run leaves a digit where the next part of the
      pattern needs a separator, an 'e' or the line end. */
  function EpisodeAt(s: string, i: int): Option<(nat, nat)>
    requires 0 <= i <= |s|
  {
    if i == |s| || LowerChar(s[i]) != 's' then None
    else
      var b := RunEnd(s, i + 1, IsDigit);
      var c := if b < |s| && IsEpisodeSep(s[b]) then b + 1 else b;
      if b == i + 1 || c >= |s| || LowerChar(s[c]) != 'e' then None
      else
        var f := RunEnd(s, c + 1, IsDigit);
        if f == c + 1 || !LineEndFrom(s, f) then None
        else Some((DigitsAt(s, i + 1, b - i - 1), DigitsAt(s, c + 1, f - c - 1)))
  }

  predicate EpisodeFits(s: string, k: int)
  {
    0 <= k <= |s| && NoNewlineIn(s, 0, k) && EpisodeAt(s, k).Some?
  }

  function EpisodeFitsIn(s: string): int -> bool
  {
    k => EpisodeFits(s, k)
  }

  /** `FILE_PATTERN_BY_EPISODE` against a name: the season and episode read at
      the last position where the pattern fits. */
  function MatchByEpisode(s: string): (r: Option<(nat, nat)>)
    ensures r.None? <==> forall k :: 0 <= k <= |s| ==> !EpisodeFits(s, k)
    ensures r.Some? ==>
      var p := LastWhere(|s|, EpisodeFitsIn(s));
      0 <= p && EpisodeFits(s, p) && r == EpisodeAt(s, p) && forall k :: p < k <= |s| ==> !EpisodeFits(s, k)
  {
    var p := LastWhere(|s|, EpisodeFitsIn(s));
    forall k | p < k <= |s| ensures !EpisodeFits(s, k) {
      assert !EpisodeFitsIn(s)(k);
    }
    if p < 0 then None else EpisodeAt(s, p)
  }

  /** No 's' after p is followed by a digit. */
  predicate NoTagStartAfter(s: string, p: int)
  {
    forall k :: 0 <= k && p < k < |s| - 1 ==> LowerChar(s[k]) != 's' || !IsDigit(s[k + 1])
  }

  /** Then no later position fits. */
  lemma NoEpisodeAfter(s: string, p: int)
    requires 0 <= p && NoTagStartAfter(s, p)
    ensures forall k :: p < k <= |s| ==> !EpisodeFitsIn(s)(k)
  {
    forall k | p < k <= |s| ensures !EpisodeFits(s, k) {
      EpisodeFitsShape(s, k);
    }
  }

  /** A name with one `s<digits>[sep]e<digits>` tag: 's' at p, digits up to b,
      at most one separator, 'e' at c, digits up to f, then a non-digit or
      the end, and no 's' followed by a digit after p. The match is exactly
      the tag's two numbers. */
  lemma EpisodeExtraction(s: string, p: int, b: int, c: int, f: int)
    requires 0 <= p && p + 1 < b < |s| && (c == b || c == b + 1) && c + 1 < f <= |s|
    requires NoNewlineIn(s, 0, p) && LineEndFrom(s, f)
    requires LowerChar(s[p]) == 's' && LowerChar(s[c]) == 'e'
    requires forall k :: p + 1 <= k < b ==> IsDigit(s[k])
    requires c == b + 1 ==> IsEpisodeSep(s[b])
    requires forall k :: c + 1 <= k < f ==> IsDigit(s[k])
    requires f < |s| ==> !IsDigit(s[f])
    requires NoTagStartAfter(s, p)
    ensures MatchByEpisode(s) == Some((DigitsAt(s, p + 1, b - p - 1), DigitsAt(s, c + 1, f - c - 1)))
  {
    EpisodeAtIs(s, p, b, c, f);
    MatchByEpisodeAt(s, p);
  }

  lemma EpisodeAtIs(s: string, p: int, b: int, c: int, f: int)
    requires 0 <= p && p + 1 < b < |s| && (c == b || c == b + 1) && c + 1 < f <= |s|
    requires LowerChar(s[p]) == 's' && LowerChar(s[c]) == 'e'
    requires forall k :: p + 1 <= k < b ==> IsDigit(s[k])
    requires c == b + 1 ==> IsEpisodeSep(s[b])
    requires forall k :: c + 1 <= k < f ==> IsDigit(s[k])
    requires f < |s| ==> !IsDigit(s[f])
    requires LineEndFrom(s, f)
    ensures EpisodeAt(s, p) == Some((DigitsAt(s, p + 1, b - p - 1), DigitsAt(s, c + 1, f - c - 1)))
  {
    RunEndAt(s, p + 1, b, IsDigit);
    RunEndAt(s, c + 1, f, IsDigit);
  }

  /** What the episode pattern needs at its start: an 's' and a digit. */
  lemma EpisodeFitsShape(s: string, p: int)
    requires 0 <= p
    ensures EpisodeFits(s, p) ==> p + 1 < |s| && LowerChar(s[p]) == 's' && IsDigit(s[p + 1])
  {
    if EpisodeFits(s, p) {
      assert RunEnd(s, p + 1, IsDigit) > p + 1;
    }
  }

  /** The tag at p is the match when no other can start after it. */
  lemma MatchByEpisodeAt(s: string, p: int)
    requires EpisodeFits(s, p) && NoTagStartAfter(s, p)
    ensures MatchByEpisode(s) == EpisodeAt(s, p)
  {
    assert EpisodeFitsIn(s)(p);
    NoEpisodeAfter(s, p);
    LastWhereIs(|s|, EpisodeFitsIn(s), p);
  }

  /** The value of two digits. */
  lemma TwoDigits(a: char, b: char)
    requires IsDigit(a) && IsDigit(b)
    ensures DigitsValue([a, b]) == DigitValue(a) * 10 + DigitValue(b)
  {
    assert [a, b][..1] == [a];
    assert [a][..0] == [];
    assert DigitsValue([a]) == DigitValue(a);
  }

  /** Scenario: a plain tag. */
  lemma EpisodeScenarioPlain(s: string)
    requires s == "Show.S01E02.avi"
    ensures MatchByEpisode(s) == Some((1, 2))
  {
    PlainTagLayout(s);
    EpisodeExtraction(s, 5, 8, 8, 11);
    PlainTagValues(s);
  }

  lemma PlainTagValues(s: string)
    requires s == "Show.S01E02.avi"
    ensures DigitsAt(s, 6, 2) == 1 && DigitsAt(s, 9, 2) == 2
  {
    assert s[6..8] == ['0', '1'] && s[9..11] == ['0', '2'];
    TwoDigits('0', '1');
    TwoDigits('0', '2');
  }

  lemma PlainTagLayout(s: string)
    requires s == "Show.S01E02.avi"
    ensures NoNewlineIn(s, 0, 5) && LineEndFrom(s, 11)
    ensures LowerChar(s[5]) == 's' && LowerChar(s[8]) == 'e'
    ensures forall k :: 6 <= k < 8 ==> IsDigit(s[k])
    ensures forall k :: 9 <= k < 11 ==> IsDigit(s[k])
    ensures !IsDigit(s[11])
    ensures forall k :: 5 < k < |s| ==> LowerChar(s[k]) != 's'
  {
  }

  /** Scenario: an 'x' separator between the numbers. */
  lemma EpisodeScenarioSeparator(s: string)
    requires s == "show.s3xe10.avi"
    ensures MatchByEpisode(s) == Some((3, 10))
  {
    SeparatorLayout(s);
    EpisodeExtraction(s, 5, 7, 8, 11);
    SeparatorValues(s);
  }

  lemma SeparatorLayout(s: string)
    requires s == "show.s3xe10.avi"
    ensures NoNewlineIn(s, 0, 5) && LineEndFrom(s, 11) && LowerChar(s[5]) == 's' && LowerChar(s[8]) == 'e'
    ensures IsDigit(s[6]) && !IsDigit(s[7]) && IsEpisodeSep(s[7]) && IsDigit(s[9]) && IsDigit(s[10]) && !IsDigit(s[11])
    ensures forall k :: 5 < k < |s| ==> LowerChar(s[k]) != 's'
  {
  }

  lemma SeparatorValues(s: string)
    requires s == "show.s3xe10.avi"
    ensures DigitsAt(s, 6, 1) == 3 && DigitsAt(s, 9, 2) == 10
  {
    assert s[6..7] == ['3'] && ['3'][..0] == [];
    assert s[9..11] == ['1', '0'];
    TwoDigits('1', '0');
  }

  /** Scenario: of two tags the last one is read. */
  lemma EpisodeScenarioLast(s: string)
    requires s == "s01e02.s03e04.avi"
    ensures MatchByEpisode(s) == Some((3, 4))
  {
    LastLayout(s);
    EpisodeExtraction(s, 7, 10, 10, 13);
    LastValues(s);
  }

  lemma LastLayout(s: string)
    requires s == "s01e02.s03e04.avi"
    ensures NoNewlineIn(s, 0, 7) && LineEndFrom(s, 13) && LowerChar(s[7]) == 's' && LowerChar(s[10]) == 'e'
    ensures IsDigit(s[8]) && IsDigit(s[9]) && !IsDigit(s[10]) && IsDigit(s[11]) && IsDigit(s[12]) && !IsDigit(s[13])
    ensures forall k :: 7 < k < |s| ==> LowerChar(s[k]) != 's'
  {
  }

  lemma LastValues(s: string)
    requires s == "s01e02.s03e04.avi"
    ensures DigitsAt(s, 8, 2) == 3 && DigitsAt(s, 11, 2) == 4
  {
    assert s[8..10] == ['0', '3'] && s[11..13] == ['0', '4'];
    TwoDigits('0', '3');
    TwoDigits('0', '4');
  }

  /** Without the 'e' the tag is not recognised. */
  lemma NoEpisodeWithoutE(s: string)
    requires s == "show 3x10.avi"
    ensures MatchByEpisode(s) == None
  {
    assert EpisodeAt(s, 0) == None;
    NoEpisodeAfter(s, 0);
  }

  // ---------------------------------------------------------------- by folders

  /** `[-_.\ ]`. */
  predicate IsFolderSep(c: char) { c == '-' || c == '_' || c == '.' || c == ' ' }

  predicate IsSlash(c: char) { c == '/' }

  /** `(episode[-_.\ ]*)*` from i: every "episode" word with the separators
      after it. */
  function SkipEpisodeWords(s: string, i: int): (r: int)
    requires 0 <= i <= |s|
    ensures i <= r <= |s| && !LiteralAt("episode", s, r)
    decreases |s| - i
  {
    if LiteralAt("episode", s, i) then SkipEpisodeWords(s, RunEnd(s, i + 7, IsFolderSep)) else i
  }

  /** `season[-_.\ ]*(\d+)/+(episode[-_.\ ]*)*(\d+).*$` at position q, just
      after a '/'. Every repetition takes as much as it can: giving back
      leaves a character where the next part of the pattern cannot start. */
  function FolderAt(s: string, q: int): Option<(nat, nat)>
    requires 0 <= q <= |s|
  {
    if q == 0 || s[q - 1] != '/' || !LiteralAt("season", s, q) then None
    else
      var u := RunEnd(s, q + 6, IsFolderSep);
      var v := RunEnd(s, u, IsDigit);
      var w := RunEnd(s, v, IsSlash);
      var x := SkipEpisodeWords(s, w);
      var y := RunEnd(s, x, IsDigit);
      if v == u || w == v || y == x || !LineEndFrom(s, y) then None
      else Some((DigitsAt(s, u, v - u), DigitsAt(s, x, y - x)))
  }

  predicate FolderFits(s: string, q: int)
  {
    0 <= q <= |s| && NoNewlineIn(s, 0, q) && FolderAt(s, q).Some?
  }

  function FolderFitsIn(s: string): int -> bool
  {
    q => FolderFits(s, q)
  }

  /** `FILE_PATTERN_BY_EPISODE_FOLDERS`: the leading `^.*` and `/+` reach
      exactly the positions after a '/' with no newline before them; the
      last one where the rest fits wins. */
  function MatchByFolder(s: string): (r: Option<(nat, nat)>)
    ensures r.None? <==> forall q :: 0 <= q <= |s| ==> !FolderFits(s, q)
    ensures r.Some? ==>
      var p := LastWhere(|s|, FolderFitsIn(s));
      0 <= p && FolderFits(s, p) && r == FolderAt(s, p) && forall q :: p < q <= |s| ==> !FolderFits(s, q)
  {
    var p := LastWhere(|s|, FolderFitsIn(s));
    forall q | p < q <= |s| ensures !FolderFits(s, q) {
      assert !FolderFitsIn(s)(q);
    }
    if p < 0 then None else FolderAt(s, p)
  }

  // ---------------------------------------------------------------- by date

  /** `[/-_.]` under IGNORECASE as Python 2.7.18 compiles it: the range
      '/'..'_' is lower-cased member by member, so the text character,
      lower-cased, must be '.', in '/'..'@', in '['..'_' or a lower-case
      letter. */
  predicate IsDateSep(c: char)
  {
    var l := LowerChar(c);
    l == '.' || ('/' <= l <= '@') || ('[' <= l <= '_') || ('a' <= l <= 'z')
  }

  /** The class accepts '.', '/'..'_' (digits and capitals among them) and
      the lower-case letters; '-' is not in it. */
  lemma DateSepClass(c: char)
    ensures IsDateSep(c) <==> c == '.' || ('/' <= c <= '_') || ('a' <= c <= 'z')
    ensures !IsDateSep('-') && IsDateSep('/') && IsDateSep('_') && IsDateSep('5') && IsDateSep('X')
  {
  }

  predicate DigitsFrom(s: string, i: int, n: int)
    requires 0 <= i && 0 <= n
  {
    i + n <= |s| && forall k :: i <= k < i + n ==> IsDigit(s[k])
  }

  predicate DateSepAt(s: string, i: int)
    requires 0 <= i
  {
    i < |s| && IsDateSep(s[i])
  }

  /** `\D.*$` at i. */
  predicate NonDigitThenEnd(s: string, i: int)
    requires 0 <= i
  {
    i < |s| && !IsDigit(s[i]) && LineEndFrom(s, i + 1)
  }

  /** `(?P<month1>\d\d)[/-_.](?P<day1>\d\d)[/-_.]` after position p. */
  predicate MonthDayAt(s: string, p: int)
    requires 0 <= p
  {
    DigitsFrom(s, p + 1, 2) && DateSepAt(s, p + 3) && DigitsFrom(s, p + 4, 2) && DateSepAt(s, p + 6)
  }

  /** The four-digit form of year1 fits: that is the one the greedy `(\d\d)?`
      tries first. */
  predicate LongYear1At(s: string, p: int)
    requires 0 <= p
  {
    DigitsFrom(s, p + 7, 4) && NonDigitThenEnd(s, p + 11)
  }

  predicate Pattern1At(s: string, p: int)
    requires 0 <= p
  {
    MonthDayAt(s, p) && DigitsFrom(s, p + 7, 2) && (LongYear1At(s, p) || NonDigitThenEnd(s, p + 9))
  }

  /** `(?P<year2>\d\d\d\d)[/-_.](?P<month2>\d\d)[/-_.](?P<day2>\d\d)\D.*$` after p. */
  predicate Pattern2At(s: string, p: int)
    requires 0 <= p
  {
    DigitsFrom(s, p + 1, 4) && DateSepAt(s, p + 5) && DigitsFrom(s, p + 6, 2) && DateSepAt(s, p + 8)
    && DigitsFrom(s, p + 9, 2) && NonDigitThenEnd(s, p + 11)
  }

  /** The raw fields of `\D(DATE_PATTERN_1|DATE_PATTERN_2)\D.*$` at position p:
      the year as written, then month and day. The first alternative is
      tried first. */
  function DateAt(s: string, p: int): Option<(nat, nat, nat)>
    requires 0 <= p <= |s|
  {
    if p == |s| || IsDigit(s[p]) then None
    else if Pattern1At(s, p) then
      Some((DigitsAt(s, p + 7, if LongYear1At(s, p) then 4 else 2), DigitsAt(s, p + 1, 2), DigitsAt(s, p + 4, 2)))
    else if Pattern2At(s, p) then
      Some((DigitsAt(s, p + 1, 4), DigitsAt(s, p + 6, 2), DigitsAt(s, p + 9, 2)))
    else None
  }

  predicate DateFits(s: string, p: int)
  {
    0 <= p <= |s| && NoNewlineIn(s, 0, p) && DateAt(s, p).Some?
  }

  function DateFitsIn(s: string): int -> bool
  {
    p => DateFits(s, p)
  }

  /** `FILE_PATTERN_BY_DATE` against a name: the raw fields at the last
      position where the pattern fits. */
  function MatchByDate(s: string): (r: Option<(nat, nat, nat)>)
    ensures r.None? <==> forall p :: 0 <= p <= |s| ==> !DateFits(s, p)
    ensures r.Some? ==>
      var p := LastWhere(|s|, DateFitsIn(s));
      0 <= p && DateFits(s, p) && r == DateAt(s, p) && forall k :: p < k <= |s| ==> !DateFits(s, k)
  {
    var p := LastWhere(|s|, DateFitsIn(s));
    forall k | p < k <= |s| ensures !DateFits(s, k) {
      assert !DateFitsIn(s)(k);
    }
    if p < 0 then None else DateAt(s, p)
  }

  /** The date needs a non-digit on both sides: a name that starts with its
      date digits has none there, and one that ends right after them has
      nothing after them. */
  lemma DateNeedsBothSides(s: string, p: int)
    requires DateFits(s, p)
    ensures p < |s| && !IsDigit(s[p])
    ensures (p + 10 <= |s| && !IsDigit(s[p + 9])) || (p + 12 <= |s| && !IsDigit(s[p + 11]))
  {
  }

  lemma FourDigits(a: char, b: char, c: char, d: char)
    requires IsDigit(a) && IsDigit(b) && IsDigit(c) && IsDigit(d)
    ensures DigitsValue([a, b, c, d]) == ((DigitValue(a) * 10 + DigitValue(b)) * 10 + DigitValue(c)) * 10 + DigitValue(d)
  {
    assert [a, b, c, d][..3] == [a, b, c];
    assert [a, b, c][..2] == [a, b];
    TwoDigits(a, b);
  }

  /** Scenario: month, day and a four-digit year between dots. */
  lemma DateScenarioDots(s: string)
    requires s == "Show.03.05.2011.avi"
    ensures MatchByDate(s) == Some((2011, 3, 5))
  {
    DotsLayout(s);
    LastWhereIs(|s|, DateFitsIn(s), 4);
    DotsValues(s);
  }

  lemma DotsLayout(s: string)
    requires s == "Show.03.05.2011.avi"
    ensures DateFits(s, 4) && Pattern1At(s, 4) && LongYear1At(s, 4)
    ensures forall k :: 4 < k <= |s| ==> !DateFitsIn(s)(k)
  {
    assert Pattern1At(s, 4) && LongYear1At(s, 4);
    assert !IsDigit(s[4]);
    assert DateAt(s, 4).Some?;
    assert NoNewlineIn(s, 0, 4);
    forall k | 4 < k <= |s| ensures !DateFitsIn(s)(k) {
      if k < |s| && !IsDigit(s[k]) {
        assert k == 7 || k == 10 || k >= 15;
      }
    }
  }

  lemma DotsValues(s: string)
    requires s == "Show.03.05.2011.avi"
    ensures DigitsAt(s, 11, 4) == 2011 && DigitsAt(s, 5, 2) == 3 && DigitsAt(s, 8, 2) == 5
  {
    assert s[5..7] == ['0', '3'];
    assert s[8..10] == ['0', '5'];
    assert s[11..15] == ['2', '0', '1', '1'];
    TwoDigits('0', '3');
    TwoDigits('0', '5');
    FourDigits('2', '0', '1', '1');
  }

  /** What either date pattern needs right after its leading non-digit: two
      digits, then a separator and two digits, or two digits and a separator. */
  lemma DateFitsShape(s: string, p: int)
    requires 0 <= p
    ensures DateFits(s, p) ==>
      p + 6 <= |s| && !IsDigit(s[p]) && IsDigit(s[p + 1]) && IsDigit(s[p + 2]) &&
      ((IsDateSep(s[p + 3]) && IsDigit(s[p + 4]) && IsDigit(s[p + 5])) ||
       (IsDigit(s[p + 3]) && IsDigit(s[p + 4]) && IsDateSep(s[p + 5])))
  {
  }

  /** Scenario: a date written with dashes is not found, since '-' is not in
      the separator class. */
  lemma DateScenarioDashes(s: string)
    requires s == "Show.2011-03-05.avi"
    ensures MatchByDate(s) == None
  {
    assert !IsDateSep('-');
    forall k | 0 <= k <= |s| ensures !DateFits(s, k) {
      DateFitsShape(s, k);
    }
  }

  /** Scenario: a name that starts with its date has no non-digit before it. */
  lemma DateScenarioAtStart(s: string)
    requires s == "03.05.2011.avi"
    ensures MatchByDate(s) == None
  {
    AtStartInner(s);
    forall k | 0 <= k <= |s| ensures !DateFits(s, k) {
      DateFitsShape(s, k);
    }
  }

  /** The dots inside the date do not start one: after them too few digits follow. */
  lemma AtStartInner(s: string)
    requires s == "03.05.2011.avi"
    ensures !DateFits(s, 2) && !DateFits(s, 5)
  {
    assert !Pattern1At(s, 2) && !Pattern2At(s, 2);
    assert !IsDigit(s[10]) && !Pattern1At(s, 5) && !Pattern2At(s, 5);
  }

  /** Scenario: letters are separators too, and a two-digit year is read
      when no four-digit one follows. */
  lemma DateScenarioLetters(s: string)
    requires s == "x.12x25x10.avi"
    ensures MatchByDate(s) == Some((10, 12, 25))
    ensures FourDigitYear(10) == 2010
  {
    LettersLayout(s);
    LastWhereIs(|s|, DateFitsIn(s), 1);
    LettersValues(s);
  }

  lemma LettersLayout(s: string)
    requires s == "x.12x25x10.avi"
    ensures DateFits(s, 1) && Pattern1At(s, 1) && !LongYear1At(s, 1)
    ensures forall k :: 1 < k <= |s| ==> !DateFitsIn(s)(k)
  {
    assert Pattern1At(s, 1);
    forall k | 1 < k <= |s| ensures !DateFitsIn(s)(k) {
      if k < |s| && !IsDigit(s[k]) {
        assert k == 4 || k == 7 || k >= 10;
      }
    }
  }

  lemma LettersValues(s: string)
    requires s == "x.12x25x10.avi"
    ensures DigitsAt(s, 8, 2) == 10 && DigitsAt(s, 2, 2) == 12 && DigitsAt(s, 5, 2) == 25
  {
    assert s[8..10] == ['1', '0'] && s[2..4] == ['1', '2'] && s[5..7] == ['2', '5'];
    TwoDigits('1', '0');
    TwoDigits('1', '2');
    TwoDigits('2', '5');
  }
}
