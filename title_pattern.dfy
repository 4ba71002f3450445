/** The series-title test of file_matcher.py. The title becomes a list of
    lower-case tokens; the pattern built from them, `^.*t1[^\\/]+t2...tn.*$`
    under IGNORECASE, accepts a path that holds the tokens in order, each
    pair separated by a non-empty run of characters other than '/' and '\'.
    Tokens are read as literal text. */
module TitlePattern {
  import opened PyStr
  import opened Seqs
  import opened Scan

  // ---------------------------------------------------------------- tokens

  /** The title with every character of `chars` turned into a space. */
  function MaskChars(s: string, chars: string): string
  {
    seq(|s|, k requires 0 <= k < |s| => if s[k] in chars then ' ' else s[k])
  }

  /** `[w.strip().lower() for w in pieces]`. */
  function CleanPieces(pieces: seq<string>): (r: seq<string>)
    ensures |r| == |pieces|
  {
    seq(|pieces|, k requires 0 <= k < |pieces| => Lower(Strip(pieces[k])))
  }

  /** The pieces of the masked title split on single spaces, cleaned. */
  function TitlePieces(title: string, chars: string): seq<string>
  {
    CleanPieces(Split(MaskChars(title, chars), ' '))
  }

  function NotIgnored(words: seq<string>): string -> bool
  {
    w => w !in words
  }

  /** The tokens the title pattern is made of: the cleaned pieces that are not
      ignore words, in title order. */
  function TitleTokens(title: string, chars: string, words: seq<string>): (r: seq<string>)
    ensures forall k :: 0 <= k < |r| ==> r[k] !in words
  {
    Filter(TitlePieces(title, chars), NotIgnored(words))
  }

  /** Replacing one more character by a space extends the mask. */
  lemma MaskCharsStep(s: string, chars: string, c: char)
    ensures ReplaceChar(MaskChars(s, chars), c, ' ') == MaskChars(s, chars + [c])
  {
    assert forall k :: 0 <= k < |s| ==> (s[k] in chars + [c] <==> s[k] in chars || s[k] == c);
  }

  /** `build_series_title_pattern` up to the final join: one `replace` per
      ignored character, then the split, and the loop that keeps what is not
      an ignore word. */
  method BuildSeriesTitleTokens(title: string, chars: string, words: seq<string>) returns (tokens: seq<string>)
    ensures tokens == TitleTokens(title, chars, words)
  {
    var filtered := title;
    assert MaskChars(title, chars[..0]) == title;
    for i := 0 to |chars|
      invariant filtered == MaskChars(title, chars[..i])
    {
      MaskCharsStep(title, chars[..i], chars[i]);
      assert chars[..i + 1] == chars[..i] + [chars[i]];
      filtered := ReplaceChar(filtered, chars[i], ' ');
    }
    assert chars[..|chars|] == chars;
    var split := CleanPieces(Split(filtered, ' '));
    tokens := [];
    for i := 0 to |split|
      invariant tokens == Filter(split[..i], NotIgnored(words))
    {
      FilterAppend(split[..i], split[i], NotIgnored(words));
      assert split[..i + 1] == split[..i] + [split[i]];
      if split[i] !in words {
        tokens := tokens + [split[i]];
      }
    }
    assert split[..|split|] == split;
  }

  /** Every token is lower-case and holds no space: the title was split on
      spaces, and each piece stripped and lower-cased. */
  lemma TitleTokensShape(title: string, chars: string, words: seq<string>)
    ensures var r := TitleTokens(title, chars, words);
      forall k :: 0 <= k < |r| ==> ' ' !in r[k] && Lower(r[k]) == r[k]
  {
    var pieces := Split(MaskChars(title, chars), ' ');
    SplitPiecesLackSep(MaskChars(title, chars), ' ');
    forall k | 0 <= k < |pieces| ensures ' ' !in TitlePieces(title, chars)[k] {
      StripKeepsOut(pieces[k], ' ');
    }
  }

  /** With no ignored characters, the pieces of a title of space-free words
      joined by single spaces are those words, each stripped and lower-cased;
      the ignore words are then dropped. */
  lemma TitleTokensOfWords(ws: seq<string>, words: seq<string>)
    requires |ws| >= 1 && forall k :: 0 <= k < |ws| ==> ' ' !in ws[k]
    ensures TitleTokens(Join(" ", ws), "", words) == Filter(CleanPieces(ws), NotIgnored(words))
  {
    var title := Join(" ", ws);
    assert MaskChars(title, "") == title;
    SplitJoin(ws, ' ');
  }

  /** Two spaces in a row leave an empty token, which survives unless the
      empty word is an ignore word. */
  lemma EmptyTokenSurvives()
    ensures TitleTokens("Law  Order", "", []) == ["law", "", "order"]
    ensures TitleTokens("Law  Order", "", [""]) == ["law", "order"]
  {
    var ws := ["Law", "", "Order"];
    JoinLawOrder();
    TitleTokensOfWords(ws, []);
    TitleTokensOfWords(ws, [""]);
    CleanLawOrder();
    FilterLawOrder();
  }

  lemma JoinLawOrder()
    ensures Join(" ", ["Law", "", "Order"]) == "Law  Order"
  {
    assert ["Law", "", "Order"][1..] == ["", "Order"];
    assert ["", "Order"][1..] == ["Order"];
  }

  lemma FilterLawOrder()
    ensures Filter(["law", "", "order"], NotIgnored([])) == ["law", "", "order"]
    ensures Filter(["law", "", "order"], NotIgnored([""])) == ["law", "order"]
  {
    FilterKeepsAll();
    FilterDropsBlank();
  }

  lemma FilterKeepsAll()
    ensures Filter(["law", "", "order"], NotIgnored([])) == ["law", "", "order"]
  {
    var p := NotIgnored([]);
    assert p("law") && p("") && p("order");
    FilterThree("law", "", "order", p);
  }

  lemma FilterDropsBlank()
    ensures Filter(["law", "", "order"], NotIgnored([""])) == ["law", "order"]
  {
    var p := NotIgnored([""]);
    assert p("law") && !p("") && p("order");
    FilterThree("law", "", "order", p);
    assert [] + ["order"] == ["order"];
  }

  lemma FilterThree(a: string, b: string, d: string, p: string -> bool)
    ensures Filter([a, b, d], p) ==
      (if p(a) then [a] else []) + (if p(b) then [b] else []) + (if p(d) then [d] else [])
  {
    assert [a] == [] + [a];
    FilterAppend([], a, p);
    assert [a, b] == [a] + [b];
    FilterAppend([a], b, p);
    assert [a, b, d] == [a, b] + [d];
    FilterAppend([a, b], d, p);
  }

  lemma CleanLawOrder()
    ensures CleanPieces(["Law", "", "Order"]) == ["law", "", "order"]
  {
    StripNoSpace("Law");
    StripNoSpace("Order");
    assert Lower("Law") == "law";
    assert Lower("Order") == "order";
    assert Strip("") == "";
  }

  // ---------------------------------------------------------------- matching

  /** A character the separator class `[^\\/]` accepts. */
  predicate IsTitleSep(c: char) { c != '/' && c != '\\' }

  predicate SepRun(s: string, from: int, to: int)
    requires 0 <= from <= to <= |s|
  {
    forall k :: from <= k < to ==> IsTitleSep(s[k])
  }

  /** What the rest of the pattern needs from position i on: the first
      token there, then either the end of the line or a separator run and the
      remaining tokens. */
  ghost predicate ChainFrom(tokens: seq<string>, s: string, i: int)
    requires 0 <= i <= |s|
    decreases |tokens|
  {
    if tokens == [] then LineEndFrom(s, i)
    else
      LiteralAt(tokens[0], s, i) &&
      var e := i + |tokens[0]|;
      if |tokens| == 1 then LineEndFrom(s, e)
      else exists j :: e < j <= |s| && SepRun(s, e, j) && ChainFrom(tokens[1..], s, j)
  }

  /** The meaning of the title pattern: the tokens chained from some position
      the leading `^.*` can reach. */
  ghost predicate TitleMatch(tokens: seq<string>, s: string)
  {
    exists i :: 0 <= i <= |s| && NoNewlineIn(s, 0, i) && ChainFrom(tokens, s, i)
  }

  /** The matcher's search for the chain from i. */
  function ChainAt(tokens: seq<string>, s: string, i: int): bool
    requires 0 <= i <= |s|
    decreases |tokens|, 0, 0
  {
    if tokens == [] then LineEndFrom(s, i)
    else
      LiteralAt(tokens[0], s, i) &&
      var e := i + |tokens[0]|;
      if |tokens| == 1 then LineEndFrom(s, e) else SepThen(tokens[1..], s, e + 1)
  }

  /** Tries each j, left to right, as the end of the separator run, as long
      as the run can be extended to j. */
  function SepThen(tokens: seq<string>, s: string, j: int): bool
    requires 1 <= j
    decreases |tokens|, 1, |s| + 1 - j
  {
    if j > |s| || !IsTitleSep(s[j - 1]) then false
    else ChainAt(tokens, s, j) || SepThen(tokens, s, j + 1)
  }

  /** Tries the start positions from i on, up to the first newline. */
  function MatchFrom(tokens: seq<string>, s: string, i: int): bool
    requires 0 <= i <= |s|
    decreases |s| - i
  {
    ChainAt(tokens, s, i) || (i < |s| && s[i] != '\n' && MatchFrom(tokens, s, i + 1))
  }

  lemma {:induction false} ChainAtIff(tokens: seq<string>, s: string, i: int)
    requires 0 <= i <= |s|
    ensures ChainAt(tokens, s, i) <==> ChainFrom(tokens, s, i)
    decreases |tokens|, 0, 0
  {
    if |tokens| > 1 && LiteralAt(tokens[0], s, i) {
      var e := i + |tokens[0]|;
      SepThenIff(tokens[1..], s, e, e + 1);
    }
  }

  lemma {:induction false} SepThenIff(tokens: seq<string>, s: string, e: int, j: int)
    requires 0 <= e < j && e <= |s|
    requires j <= |s| + 1 ==> SepRun(s, e, j - 1)
    ensures SepThen(tokens, s, j) <==>
      exists j' :: j <= j' <= |s| && SepRun(s, e, j') && ChainFrom(tokens, s, j')
    decreases |tokens|, 1, |s| + 1 - j
  {
    if j <= |s| && IsTitleSep(s[j - 1]) {
      assert SepRun(s, e, j);
      ChainAtIff(tokens, s, j);
      SepThenIff(tokens, s, e, j + 1);
      if exists j' :: j <= j' <= |s| && SepRun(s, e, j') && ChainFrom(tokens, s, j') {
        var j' :| j <= j' <= |s| && SepRun(s, e, j') && ChainFrom(tokens, s, j');
        if j' > j {
          assert j + 1 <= j' <= |s| && SepRun(s, e, j') && ChainFrom(tokens, s, j');
        }
      }
    } else if j <= |s| {
      forall j' | j <= j' <= |s| ensures !SepRun(s, e, j') {
        assert !IsTitleSep(s[j - 1]);
      }
    }
  }

  lemma {:induction false} MatchFromIff(tokens: seq<string>, s: string, i: int)
    requires 0 <= i <= |s| && NoNewlineIn(s, 0, i)
    ensures MatchFrom(tokens, s, i) <==>
      exists i' :: i <= i' <= |s| && NoNewlineIn(s, 0, i') && ChainFrom(tokens, s, i')
    decreases |s| - i
  {
    ChainAtIff(tokens, s, i);
    if i < |s| && s[i] != '\n' {
      MatchFromIff(tokens, s, i + 1);
      if exists i' :: i <= i' <= |s| && NoNewlineIn(s, 0, i') && ChainFrom(tokens, s, i') {
        var i' :| i <= i' <= |s| && NoNewlineIn(s, 0, i') && ChainFrom(tokens, s, i');
        if i' > i {
          assert i + 1 <= i' <= |s| && NoNewlineIn(s, 0, i') && ChainFrom(tokens, s, i');
        }
      }
    } else if i < |s| {
      forall i' | i < i' <= |s| ensures !NoNewlineIn(s, 0, i') {
        assert s[i] == '\n';
      }
    }
  }

  /** `matches_series_title`: the title pattern matches the path. */
  function MatchesSeriesTitle(tokens: seq<string>, path: string): (r: bool)
    ensures r <==> TitleMatch(tokens, path)
  {
    MatchFromIff(tokens, path, 0);
    MatchFrom(tokens, path, 0)
  }

  /** A path holding the tokens joined by single spaces, after a newline-free
      prefix and before a rest with at most a final newline, matches. */
  lemma TitleFoundInPath(tokens: seq<string>, pre: string, post: string)
    requires '\n' !in pre && LineEndFrom(post, 0)
    ensures MatchesSeriesTitle(tokens, pre + Join(" ", tokens) + post)
  {
    var s := pre + Join(" ", tokens) + post;
    assert s[|pre|..|pre| + |Join(" ", tokens)|] == Join(" ", tokens);
    ChainOfJoin(tokens, s, |pre|);
    assert NoNewlineIn(s, 0, |pre|) by {
      forall k | 0 <= k < |pre| ensures s[k] != '\n' { assert s[k] == pre[k]; }
    }
  }

  lemma {:induction false} ChainOfJoin(tokens: seq<string>, s: string, i: int)
    requires 0 <= i && i + |Join(" ", tokens)| <= |s|
    requires s[i..i + |Join(" ", tokens)|] == Join(" ", tokens)
    requires LineEndFrom(s, i + |Join(" ", tokens)|)
    ensures ChainFrom(tokens, s, i)
    decreases |tokens|
  {
    var n := |Join(" ", tokens)|;
    if |tokens| == 1 {
      assert forall k :: 0 <= k < n ==> tokens[0][k] == s[i + k];
    } else if |tokens| > 1 {
      var t, rest := tokens[0], tokens[1..];
      var j := i + |t| + 1;
      assert Join(" ", tokens) == t + " " + Join(" ", rest);
      assert forall k :: 0 <= k < |t| ==> t[k] == s[i + k];
      assert s[j - 1] == s[i..i + n][|t|];
      assert s[j..j + |Join(" ", rest)|] == s[i..i + n][|t| + 1..];
      ChainOfJoin(rest, s, j);
      assert SepRun(s, j - 1, j);
    }
  }

  /** Scenarios: separators other than spaces, and a '/' between tokens. */
  lemma TitleScenarios()
    ensures MatchesSeriesTitle(["law", "order"], "Law.Order.S01E02.avi")
    ensures !MatchesSeriesTitle(["a", "b"], "a/b")
  {
    var s := "Law.Order.S01E02.avi";
    assert LiteralAt("law", s, 0) && LiteralAt("order", s, 4);
    assert ChainFrom(["order"], s, 4);
    assert ["law", "order"][1..] == ["order"];
    assert SepRun(s, 3, 4) && ChainFrom(["law", "order"], s, 0);
    assert NoNewlineIn(s, 0, 0);
    var t := "a/b";
    assert ["a", "b"][1..] == ["b"];
    assert !SepThen(["b"], t, 2);
    assert !ChainAt(["a", "b"], t, 1) && !ChainAt(["a", "b"], t, 2) && !ChainAt(["a", "b"], t, 3);
    assert !MatchFrom(["a", "b"], t, 3);
    assert !MatchFrom(["a", "b"], t, 2);
    assert !MatchFrom(["a", "b"], t, 1);
  }
}
