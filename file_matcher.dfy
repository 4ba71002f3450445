/** file_matcher.py: a matcher for one watched series recognises the series
    title in a path, reads the candidate identities of the episode from the
    path with the three fixed patterns, and resolves a candidate to an
    episode through the local cache, asking the remote guide only on a miss. */
module FileMatcher {
  import opened Wrappers
  import opened PyStr
  import opened Metadata
  import opened DateTimes
  import PosixPath
  import opened Scan
  import opened TitlePattern
  import opened FilePatterns
  import Db = Database
  import opened Remote

  /** `EpisodeMatch` and `DateMatch`: the path, the series, and the numbers
      or the day read from the path. */
  datatype Candidate =
    | EpisodeMatch(filePath: string, series: Series, seasonNumber: nat, episodeNumber: nat)
    | DateMatch(filePath: string, series: Series, year: nat, month: nat, day: nat)

  /** `FileMatcher(config, series, debug)` after its constructor: the series
      and the title tokens its title pattern is built from. */
  datatype FileMatcher = FileMatcher(series: Series, tokens: seq<string>)

  /** The constructor: builds the title tokens from the configured characters
      and words to ignore. */
  method NewFileMatcher(series: Series, chars: string, words: seq<string>) returns (m: FileMatcher)
    ensures m.series == series && m.tokens == TitleTokens(series.title, chars, words)
  {
    var tokens := BuildSeriesTitleTokens(series.title, chars, words);
    m := FileMatcher(series, tokens);
  }

  // ---------------------------------------------------------------- candidates

  /** The file-name part of a path, as `os.path.split` gives it. */
  function FileNamePart(path: string): string
  {
    PosixPath.Split(path).1
  }

  /** The directory part with every '\' turned into '/', then '/', then the
      file name. */
  function ConvertedPath(path: string): string
  {
    var parts := PosixPath.Split(path);
    ReplaceChar(parts.0, '\\', '/') + "/" + parts.1
  }

  /** Season and episode: by the episode pattern on the file name, else by
      the folder pattern on the converted path. */
  function EpisodeNumbers(path: string): Option<(nat, nat)>
  {
    var byName := MatchByEpisode(FileNamePart(path));
    if byName.Some? then byName else MatchByFolder(ConvertedPath(path))
  }

  /** Year, month and day by the date pattern on the file name, with the
      year widened to four digits. */
  function DateFields(path: string): Option<(nat, nat, nat)>
  {
    var raw := MatchByDate(FileNamePart(path));
    if raw.None? then None else Some((FourDigitYear(raw.value.0), raw.value.1, raw.value.2))
  }

  /** The candidates built from what the patterns read: at most two, an
      EpisodeMatch exactly when numbers were read and then first, a
      DateMatch exactly when a day was read and then last, each for the
      given path and series. */
  function CandidateList(series: Series, path: string, numbers: Option<(nat, nat)>, date: Option<(nat, nat, nat)>)
    : (r: seq<Candidate>)
    ensures |r| <= 2
    ensures forall k :: 0 <= k < |r| ==> r[k].filePath == path && r[k].series == series
    ensures forall k :: 0 < k < |r| ==> r[k].DateMatch?
    ensures numbers.Some? <==> |r| > 0 && r[0].EpisodeMatch?
    ensures numbers.Some? ==> r[0] == EpisodeMatch(path, series, numbers.value.0, numbers.value.1)
    ensures date.Some? <==> |r| > 0 && r[|r| - 1].DateMatch?
    ensures date.Some? ==> r[|r| - 1] == DateMatch(path, series, date.value.0, date.value.1, date.value.2)
  {
    (if numbers.Some? then [EpisodeMatch(path, series, numbers.value.0, numbers.value.1)] else [])
    + (if date.Some? then [DateMatch(path, series, date.value.0, date.value.1, date.value.2)] else [])
  }

  lemma CandidateListParts(series: Series, path: string, numbers: Option<(nat, nat)>, date: Option<(nat, nat, nat)>,
                           head: seq<Candidate>, r: seq<Candidate>)
    requires head == if numbers.Some? then [EpisodeMatch(path, series, numbers.value.0, numbers.value.1)] else []
    requires r == head + if date.Some? then [DateMatch(path, series, date.value.0, date.value.1, date.value.2)] else []
    ensures r == CandidateList(series, path, numbers, date)
  {
  }

  lemma CandidatesParts(series: Series, path: string, numbers: Option<(nat, nat)>, date: Option<(nat, nat, nat)>,
                        head: seq<Candidate>, r: seq<Candidate>)
    requires numbers == EpisodeNumbers(path) && date == DateFields(path)
    requires head == if numbers.Some? then [EpisodeMatch(path, series, numbers.value.0, numbers.value.1)] else []
    requires r == head + if date.Some? then [DateMatch(path, series, date.value.0, date.value.1, date.value.2)] else []
    ensures r == Candidates(series, path)
  {
    CandidateListParts(series, path, numbers, date, head, r);
  }

  /** The candidates `match_episode` returns for a path. */
  function Candidates(series: Series, path: string): seq<Candidate>
  {
    CandidateList(series, path, EpisodeNumbers(path), DateFields(path))
  }

  /** `match_episode(file_path)`. */
  method MatchEpisode(m: FileMatcher, filePath: string) returns (r: seq<Candidate>)
    ensures r == Candidates(m.series, filePath)
  {
    var numbers := ReadEpisodeNumbers(filePath);
    if numbers.Some? {
      r := [EpisodeMatch(filePath, m.series, numbers.value.0, numbers.value.1)];
    } else {
      r := [];
    }
    ghost var head := r;
    var date := ReadDate(filePath);
    if date.Some? {
      r := r + [DateMatch(filePath, m.series, date.value.0, date.value.1, date.value.2)];
    }
    CandidatesParts(m.series, filePath, numbers, date, head, r);
  }

  /** The first half of `match_episode`: the episode pattern on the file
      name, else the folder pattern on the converted path. */
  method ReadEpisodeNumbers(filePath: string) returns (numbers: Option<(nat, nat)>)
    ensures numbers == EpisodeNumbers(filePath)
  {
    var parts := PosixPath.Split(filePath);
    var dirName := ReplaceChar(parts.0, '\\', '/');
    var converted := dirName + "/" + parts.1;
    assert parts.1 == FileNamePart(filePath) && converted == ConvertedPath(filePath);
    numbers := MatchByEpisode(parts.1);
    if numbers.None? {
      numbers := MatchByFolder(converted);
    }
  }

  /** The second half of `match_episode`: the date pattern on the file name,
      the year widened to four digits. */
  method ReadDate(filePath: string) returns (date: Option<(nat, nat, nat)>)
    ensures date == DateFields(filePath)
  {
    var fileName := PosixPath.Split(filePath).1;
    var raw := MatchByDate(fileName);
    if raw.None? {
      return None;
    }
    var year := FourDigitYear(raw.value.0);
    date := Some((year, raw.value.1, raw.value.2));
  }

  /** A file name holding one episode tag: the numbers read, and so the
      EpisodeMatch, are exactly its two numbers. */
  lemma EpisodeTagInName(series: Series, path: string, p: int, b: int, c: int, f: int)
    requires var s := FileNamePart(path);
      0 <= p < b <= c < f <= |s| && (c == b || c == b + 1) && p + 1 < b && c + 1 < f
      && LowerChar(s[p]) == 's' && LowerChar(s[c]) == 'e'
      && (forall k :: p + 1 <= k < b ==> IsDigit(s[k])) && (b < |s| ==> !IsDigit(s[b]))
      && (c == b + 1 ==> IsEpisodeSep(s[b]))
      && (forall k :: c + 1 <= k < f ==> IsDigit(s[k])) && (f < |s| ==> !IsDigit(s[f]))
      && NoNewlineIn(s, 0, p) && LineEndFrom(s, f)
      && NoTagStartAfter(s, p)
    ensures var s := FileNamePart(path);
      EpisodeNumbers(path) == Some((DigitsAt(s, p + 1, b - p - 1), DigitsAt(s, c + 1, f - c - 1)))
  {
    EpisodeExtraction(FileNamePart(path), p, b, c, f);
  }

  /** A directory part without '\' is kept as it is. */
  lemma ReplaceAbsent(s: string, c: char, with: char)
    requires c !in s
    ensures ReplaceChar(s, c, with) == s
  {
  }

  /** Scenario: the numbers come from the season folder when the file name
      has no tag, and a name without a date gives no DateMatch. */
  lemma FolderCandidate(series: Series, path: string)
    requires path == "/tv/Show/Season 2/Episode 5.avi"
    ensures Candidates(series, path) == [EpisodeMatch(path, series, 2, 5)]
  {
    var d, t := "/tv/Show/Season 2", "Episode 5.avi";
    SeasonPathParts(path, d, t);
    ReplaceAbsent(d, '\\', '/');
    NameHasNoTag(t);
    NameHasNoDate(t);
    FolderOfPath(path);
  }

  lemma SeasonPathParts(path: string, d: string, t: string)
    requires path == "/tv/Show/Season 2/Episode 5.avi"
    requires d == "/tv/Show/Season 2" && t == "Episode 5.avi"
    ensures FileNamePart(path) == t && ConvertedPath(path) == path && '\\' !in d
  {
    assert path == d + "/" + t;
    PartsOfJoin(d, t);
  }

  /** A path made of a directory without '\' or a trailing '/', then '/',
      then a name: the name is its file-name part and converting changes
      nothing. */
  lemma PartsOfJoin(d: string, t: string)
    requires '/' !in t && d != [] && d[|d| - 1] != '/' && '\\' !in d
    ensures FileNamePart(d + "/" + t) == t && ConvertedPath(d + "/" + t) == d + "/" + t
  {
    PosixPath.SplitJoin(d, t);
    ReplaceAbsent(d, '\\', '/');
  }

  lemma NameHasNoTag(t: string)
    requires t == "Episode 5.avi"
    ensures MatchByEpisode(t) == None
  {
    NoTagStart(t);
    forall k | 0 <= k <= |t| ensures !EpisodeFits(t, k) {
      EpisodeFitsShape(t, k);
    }
  }

  lemma NoTagStart(t: string)
    requires t == "Episode 5.avi"
    ensures forall k :: 0 <= k < |t| - 1 ==> LowerChar(t[k]) != 's' || !IsDigit(t[k + 1])
  {
    forall k | 0 <= k < |t| - 1 ensures LowerChar(t[k]) != 's' || !IsDigit(t[k + 1]) {
      assert k == 3 || LowerChar(t[k]) != 's';
    }
  }

  lemma NameHasNoDate(t: string)
    requires t == "Episode 5.avi"
    ensures MatchByDate(t) == None
  {
    forall k | 0 <= k <= |t| ensures !DateFits(t, k) {
      DateFitsShape(t, k);
    }
  }

  lemma FolderOfPath(s: string)
    requires s == "/tv/Show/Season 2/Episode 5.avi"
    ensures MatchByFolder(s) == Some((2, 5))
  {
    FolderPathLayout(s);
    NoFolderPastSeason(s);
    assert FolderFitsIn(s)(9);
    LastWhereIs(|s|, FolderFitsIn(s), 9);
  }

  lemma FolderPathLayout(s: string)
    requires s == "/tv/Show/Season 2/Episode 5.avi"
    ensures FolderFits(s, 9) && FolderAt(s, 9) == Some((2, 5))
  {
    FolderPathText(s);
    FolderPathRuns(s);
    FolderPathSkip(s);
    FolderPathValues(s);
  }

  lemma FolderPathText(s: string)
    requires s == "/tv/Show/Season 2/Episode 5.avi"
    ensures LiteralAt("season", s, 9) && s[8] == '/' && NoNewlineIn(s, 0, 9) && LineEndFrom(s, 27)
  {
  }

  lemma FolderPathRuns(s: string)
    requires s == "/tv/Show/Season 2/Episode 5.avi"
    ensures RunEnd(s, 15, IsFolderSep) == 16 && RunEnd(s, 16, IsDigit) == 17 && RunEnd(s, 17, IsSlash) == 18
    ensures RunEnd(s, 26, IsDigit) == 27 && IsDigit(s[16]) && IsDigit(s[26])
  {
    SeasonRuns(s);
    RunEndAt(s, 26, 27, IsDigit);
  }

  lemma SeasonRuns(s: string)
    requires s == "/tv/Show/Season 2/Episode 5.avi"
    ensures RunEnd(s, 15, IsFolderSep) == 16 && RunEnd(s, 16, IsDigit) == 17 && RunEnd(s, 17, IsSlash) == 18
  {
    RunEndAt(s, 15, 16, IsFolderSep);
    RunEndAt(s, 16, 17, IsDigit);
    RunEndAt(s, 17, 18, IsSlash);
  }

  lemma FolderPathSkip(s: string)
    requires s == "/tv/Show/Season 2/Episode 5.avi"
    ensures SkipEpisodeWords(s, 18) == 26
  {
    assert LiteralAt("episode", s, 18);
    RunEndAt(s, 25, 26, IsFolderSep);
    assert !LiteralAt("episode", s, 26);
  }

  lemma NoFolderPastSeason(s: string)
    requires s == "/tv/Show/Season 2/Episode 5.avi"
    ensures forall q :: 9 < q <= |s| ==> !FolderFitsIn(s)(q)
  {
    assert !LiteralAt("season", s, 18) by {
      assert LowerChar(s[18 + 0]) != LowerChar("season"[0]);
    }
    forall q | 9 < q <= |s| ensures !FolderFits(s, q) {
      assert q == 18 || s[q - 1] != '/';
    }
  }

  lemma FolderPathValues(s: string)
    requires s == "/tv/Show/Season 2/Episode 5.avi"
    ensures IsDigit(s[16]) && IsDigit(s[26]) && DigitsAt(s, 16, 1) == 2 && DigitsAt(s, 26, 1) == 5
  {
    assert s[16..17] == ['2'] && s[26..27] == ['5'];
    assert ['2'][..0] == [] && ['5'][..0] == [];
  }

  // ---------------------------------------------------------------- resolving a candidate

  /** The cache query a candidate makes. */
  function CacheQuery(c: Candidate, series: seq<Db.SeriesRow>, episodes: seq<Db.EpisodeRow>): Result<Option<Episode>>
  {
    match c
    case EpisodeMatch(_, s, n, m) => Db.EpisodeLookup(series, episodes, s.id, Db.Numbered(n, m))
    case DateMatch(_, s, y, m, d) => Db.EpisodeByDate(series, episodes, s.id, y, m, d)
  }

  /** What the remote guide answers for a candidate. */
  function RemoteAnswer(c: Candidate, p: Provider): Option<Episode>
  {
    match c
    case EpisodeMatch(_, s, n, m) => p.byNumber(s, n, m)
    case DateMatch(_, s, y, m, d) => p.byDate(s, y, m, d)
  }

  /** What resolving a candidate gives: its result, the episode table after
      it, and whether the remote guide was asked. */
  datatype Outcome = Outcome(result: Result<Option<Episode>>, episodes: seq<Db.EpisodeRow>, asked: bool)

  /** `get_episode_metadata` on the tables, given the remote answer: the
      cached episode when the query finds one (or raises); otherwise the
      remote answer, stored first when there is one. */
  function Resolve(c: Candidate, series: seq<Db.SeriesRow>, episodes: seq<Db.EpisodeRow>, answer: Option<Episode>)
    : Outcome
    requires answer.Some? ==> ValidEpisode(answer.value)
  {
    var cached := CacheQuery(c, series, episodes);
    if cached.Err? || cached.value.Some? then Outcome(cached, episodes, false)
    else if answer.None? then Outcome(Ok(None), episodes, true)
    else
      var added := Db.AddedEpisodes(episodes, answer.value, c.series.id);
      if added.None? then Outcome(Err("year is before 1900"), episodes, true)
      else Outcome(Ok(answer), added.value, true)
  }

  /** `get_episode_metadata(database, thetvdb)`. */
  method GetEpisodeMetadata(c: Candidate, db: Db.Database, p: Provider) returns (r: Result<Option<Episode>>)
    requires p.Sound()
    modifies db, p
    ensures var o := Resolve(c, old(db.series), old(db.episodes), RemoteAnswer(c, p));
      r == o.result && db.episodes == o.episodes && p.requests == old(p.requests) + (if o.asked then 1 else 0)
    ensures db.series == old(db.series) && db.movies == old(db.movies)
    ensures old(db.Valid()) ==> db.Valid()
  {
    var episode: Result<Option<Episode>>;
    if c.EpisodeMatch? {
      episode := db.GetEpisode(c.series.id, c.seasonNumber, c.episodeNumber);
    } else {
      episode := db.GetEpisodeByDate(c.series.id, c.year, c.month, c.day);
    }
    assert episode == CacheQuery(c, db.series, db.episodes);
    if episode.Err? || episode.value.Some? {
      return episode;
    }
    var answer: Option<Episode>;
    if c.EpisodeMatch? {
      answer := p.GetSpecificEpisode(c.series, c.seasonNumber, c.episodeNumber);
    } else {
      answer := p.GetSpecificEpisodeByDate(c.series, c.year, c.month, c.day);
    }
    assert answer == RemoteAnswer(c, p);
    if answer.None? {
      return Ok(None);
    }
    var ok := db.AddEpisode(answer.value, c.series);
    if !ok {
      return Err("year is before 1900");
    }
    r := Ok(answer);
  }

  /** A cache hit asks nothing remotely and changes nothing; a remote miss
      returns None and changes nothing. */
  lemma ResolveHitOrMiss(c: Candidate, series: seq<Db.SeriesRow>, episodes: seq<Db.EpisodeRow>, answer: Option<Episode>)
    requires answer.Some? ==> ValidEpisode(answer.value)
    ensures var q := CacheQuery(c, series, episodes);
      q.Ok? && q.value.Some? ==> Resolve(c, series, episodes, answer) == Outcome(q, episodes, false)
    ensures CacheQuery(c, series, episodes) == Ok(None) && answer.None? ==>
      Resolve(c, series, episodes, answer) == Outcome(Ok(None), episodes, true)
    ensures Resolve(c, series, episodes, answer).episodes != episodes ==>
      answer.Some? && Resolve(c, series, episodes, answer).result == Ok(answer)
  {
  }

  /** The candidate's numbers, or its day, select the episode. */
  predicate Describes(c: Candidate, e: Episode)
  {
    match c
    case EpisodeMatch(_, _, n, m) => e.seasonNumber == n && e.episodeNumber == m
    case DateMatch(_, _, y, m, d) =>
      e.originalAirDate.Some? && e.originalAirDate.value == DateTime(y, m, d, 0, 0, 0)
  }

  /** No stored row of the series answers the candidate's query. */
  predicate Unanswered(c: Candidate, episodes: seq<Db.EpisodeRow>)
  {
    forall k :: 0 <= k < |episodes| && episodes[k].seriesId == c.series.id ==>
      match c
      case EpisodeMatch(_, _, n, m) => episodes[k].seasonNumber != n || episodes[k].episodeNumber != m
      case DateMatch(_, _, y, m, d) =>
        !ValidDate(y, m, d) || episodes[k].originalAirDate != Ymd(DateTime(y, m, d, 0, 0, 0))
  }

  /** Cache-aside settles: when the series is cached and no row answers the
      query yet, an answer the remote guide gives for it is stored, and
      resolving the same candidate again reads it from the cache without
      asking the remote guide. */
  lemma ResolveThenHit(c: Candidate, series: seq<Db.SeriesRow>, episodes: seq<Db.EpisodeRow>, e: Episode, i: int)
    requires ValidEpisode(e) && Db.EpisodeListsPipeFree(e) && Describes(c, e)
    requires e.originalAirDate.Some? ==> e.originalAirDate.value.year >= 1900
    requires Db.UniqueSeriesIds(series) && 0 <= i < |series| && series[i].id == c.series.id
    requires Unanswered(c, episodes)
    ensures var first := Resolve(c, series, episodes, Some(e));
      first.result == Ok(Some(e)) && first.asked
      && Resolve(c, series, first.episodes, None)
         == Outcome(Ok(Some(Db.StoredEpisode(e, series[i], Db.NextEpisodeId(episodes)))), first.episodes, false)
  {
    QueriesAroundAdd(c, series, episodes, e, i);
  }

  /** The candidate's query before and after the episode is stored. */
  lemma QueriesAroundAdd(c: Candidate, series: seq<Db.SeriesRow>, episodes: seq<Db.EpisodeRow>, e: Episode, i: int)
    requires ValidEpisode(e) && Db.EpisodeListsPipeFree(e) && Describes(c, e)
    requires e.originalAirDate.Some? ==> e.originalAirDate.value.year >= 1900
    requires Db.UniqueSeriesIds(series) && 0 <= i < |series| && series[i].id == c.series.id
    requires Unanswered(c, episodes)
    ensures CacheQuery(c, series, episodes) == Ok(None)
    ensures Db.AddedEpisodes(episodes, e, c.series.id).Some?
    ensures CacheQuery(c, series, Db.AddedEpisodes(episodes, e, c.series.id).value)
         == Ok(Some(Db.StoredEpisode(e, series[i], Db.NextEpisodeId(episodes))))
  {
    var sid := c.series.id;
    if c.EpisodeMatch? {
      Db.UnansweredReadsAbsent(series, episodes, sid, Db.Numbered(c.seasonNumber, c.episodeNumber));
      Db.AddEpisodeThenGet(series, episodes, e, i);
    } else {
      var t := DateTime(c.year, c.month, c.day, 0, 0, 0);
      Db.UnansweredReadsAbsent(series, episodes, sid, Db.AiredOn(Ymd(t)));
      Db.AddEpisodeThenGetByDate(series, episodes, e, i);
    }
    QueryOfCandidate(c, series, episodes);
    QueryOfCandidate(c, series, Db.AddedEpisodes(episodes, e, sid).value);
  }

  /** The query of a candidate whose day is real is an episode lookup under
      a selector. */
  lemma QueryOfCandidate(c: Candidate, series: seq<Db.SeriesRow>, episodes: seq<Db.EpisodeRow>)
    requires c.DateMatch? ==> ValidDate(c.year, c.month, c.day) && c.year >= 1900
    ensures c.EpisodeMatch? ==>
      CacheQuery(c, series, episodes) == Db.EpisodeLookup(series, episodes, c.series.id, Db.Numbered(c.seasonNumber, c.episodeNumber))
    ensures c.DateMatch? ==>
      CacheQuery(c, series, episodes)
      == Db.EpisodeLookup(series, episodes, c.series.id, Db.AiredOn(Ymd(DateTime(c.year, c.month, c.day, 0, 0, 0))))
  {
  }
}
