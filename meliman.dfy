/** meliman.py: choosing the one action a run performs, looking episodes up
    by a `series_id[:season[:episode]]` pattern, the cache-aside fetch of one
    episode, watching and unwatching a series, and the processing run that
    places incoming files in the library under the process lock. */
module Meliman {
  import opened Wrappers
  import opened PyStr
  import opened Metadata
  import opened Seqs
  import Db = Database
  import opened Remote
  import opened FileMatcher
  import opened FileManager
  import PosixPath

  // ---------------------------------------------------------------- do_action

  /** The action options as parsed. A string option that was not given is
      `None` in Python and reads as false, like the empty string; both are
      the empty string here. */
  datatype Options = Options(
    seriesLookup: string, episodeLookup: string, watchSeries: string, unwatchSeries: string,
    listWatchedSeries: bool, clearEpisodes: string, cleanupFileName: string, metadata: string,
    generate: string, regenerate: bool, process: bool)

  datatype Action =
    | SeriesLookup(name: string)
    | EpisodeLookup(pattern: string)
    | ClearEpisodes(seriesId: string)
    | WatchSeries(seriesId: string)
    | UnwatchSeries(seriesId: string)
    | ListWatchedSeries
    | CleanupFileName(file: string)
    | ShowMetadata(file: string)
    | Generate(directory: string)
    | Regenerate
    | Process

  /** The truth value of each action option, in the order `do_action` counts
      them. */
  function ActionFlags(o: Options): (r: seq<bool>)
    ensures |r| == 11
  {
    [o.seriesLookup != "", o.episodeLookup != "", o.watchSeries != "", o.unwatchSeries != "",
     o.listWatchedSeries, o.clearEpisodes != "", o.cleanupFileName != "", o.metadata != "",
     o.generate != "", o.regenerate, o.process]
  }

  /** The position of an action's option among the flags. */
  function FlagOf(a: Action): (r: nat)
    ensures r < 11
  {
    match a
    case SeriesLookup(_) => 0
    case EpisodeLookup(_) => 1
    case WatchSeries(_) => 2
    case UnwatchSeries(_) => 3
    case ListWatchedSeries => 4
    case ClearEpisodes(_) => 5
    case CleanupFileName(_) => 6
    case ShowMetadata(_) => 7
    case Generate(_) => 8
    case Regenerate => 9
    case Process => 10
  }

  /** The `if`/`elif` chain of `do_action`, which tests clear-episodes
      before watch. */
  function Chosen(o: Options): Option<Action>
  {
    if o.seriesLookup != "" then Some(SeriesLookup(o.seriesLookup))
    else if o.episodeLookup != "" then Some(EpisodeLookup(o.episodeLookup))
    else if o.clearEpisodes != "" then Some(ClearEpisodes(o.clearEpisodes))
    else if o.watchSeries != "" then Some(WatchSeries(o.watchSeries))
    else if o.unwatchSeries != "" then Some(UnwatchSeries(o.unwatchSeries))
    else if o.listWatchedSeries then Some(ListWatchedSeries)
    else if o.cleanupFileName != "" then Some(CleanupFileName(o.cleanupFileName))
    else if o.metadata != "" then Some(ShowMetadata(o.metadata))
    else if o.generate != "" then Some(Generate(o.generate))
    else if o.regenerate then Some(Regenerate)
    else if o.process then Some(Process)
    else None
  }

  /** `do_action`'s count: `true_count` over the flags. */
  method DoAction(o: Options) returns (r: Option<Action>)
    ensures r.None? <==> CountTrue(ActionFlags(o)) != 1
    ensures r.Some? ==> r == Chosen(o)
  {
    var trueCount := CountTruthy(ActionFlags(o));
    if trueCount == 1 {
      r := Chosen(o);
      ChosenIsTheOne(o);
    } else {
      r := None;
    }
  }

  /** With exactly one option set, the chain runs the action of that option
      and nothing else. */
  lemma ChosenIsTheOne(o: Options)
    requires CountTrue(ActionFlags(o)) == 1
    ensures Chosen(o).Some? && OnlyTrueAt(ActionFlags(o), FlagOf(Chosen(o).value))
  {
    CountOne(ActionFlags(o));
    var i :| OnlyTrueAt(ActionFlags(o), i);
    var f := ActionFlags(o);
    assert f[i];
    assert forall j :: 0 <= j < 11 && j != i ==> !f[j];
  }

  // ---------------------------------------------------------------- get_specific_episode

  /** `get_specific_episode(thetvdb, database, series, season, episode)` on
      the tables, given the remote answer: the cached episode when there is
      one (or the error reading it); otherwise the remote answer, stored
      first when there is one. */
  function SpecificEpisode(series: seq<Db.SeriesRow>, episodes: seq<Db.EpisodeRow>, s: Series,
                           seasonNumber: int, episodeNumber: int, answer: Option<Episode>): Outcome
    requires answer.Some? ==> ValidEpisode(answer.value)
  {
    var cached := Db.EpisodeLookup(series, episodes, s.id, Db.Numbered(seasonNumber, episodeNumber));
    if cached.Err? || cached.value.Some? then Outcome(cached, episodes, false)
    else if answer.None? then Outcome(Ok(None), episodes, true)
    else
      var added := Db.AddedEpisodes(episodes, answer.value, s.id);
      if added.None? then Outcome(Err("year is before 1900"), episodes, true)
      else Outcome(Ok(answer), added.value, true)
  }

  /** It is the cache-aside resolution of an episode-number candidate. */
  lemma SpecificIsResolve(series: seq<Db.SeriesRow>, episodes: seq<Db.EpisodeRow>, s: Series,
                          seasonNumber: nat, episodeNumber: nat, answer: Option<Episode>, path: string)
    requires answer.Some? ==> ValidEpisode(answer.value)
    ensures SpecificEpisode(series, episodes, s, seasonNumber, episodeNumber, answer)
         == Resolve(EpisodeMatch(path, s, seasonNumber, episodeNumber), series, episodes, answer)
  {
  }

  /** A remote hit is stored, so asking again is answered by the cache,
      with no remote request, and gives the stored episode. */
  lemma SpecificThenCached(series: seq<Db.SeriesRow>, episodes: seq<Db.EpisodeRow>, s: Series, e: Episode, i: int)
    requires ValidEpisode(e) && Db.EpisodeListsPipeFree(e)
    requires e.originalAirDate.Some? ==> e.originalAirDate.value.year >= 1900
    requires Db.UniqueSeriesIds(series) && 0 <= i < |series| && series[i].id == s.id
    requires forall k :: 0 <= k < |episodes| && episodes[k].seriesId == s.id ==>
      episodes[k].seasonNumber != e.seasonNumber || episodes[k].episodeNumber != e.episodeNumber
    ensures var first := SpecificEpisode(series, episodes, s, e.seasonNumber, e.episodeNumber, Some(e));
      first.result == Ok(Some(e)) && first.asked
      && SpecificEpisode(series, first.episodes, s, e.seasonNumber, e.episodeNumber, None)
         == Outcome(Ok(Some(Db.StoredEpisode(e, series[i], Db.NextEpisodeId(episodes)))), first.episodes, false)
  {
    var c := EpisodeMatch("", s, e.seasonNumber, e.episodeNumber);
    SpecificIsResolve(series, episodes, s, e.seasonNumber, e.episodeNumber, Some(e), "");
    var first := Resolve(c, series, episodes, Some(e));
    SpecificIsResolve(series, first.episodes, s, e.seasonNumber, e.episodeNumber, None, "");
    ResolveThenHit(c, series, episodes, e, i);
  }

  /** `get_specific_episode` on the cache and the remote guide. */
  method GetSpecificEpisode(p: Provider, db: Db.Database, s: Series, seasonNumber: int, episodeNumber: int)
    returns (r: Result<Option<Episode>>)
    requires p.Sound()
    modifies db, p
    ensures var o := SpecificEpisode(old(db.series), old(db.episodes), s, seasonNumber, episodeNumber,
                                      p.byNumber(s, seasonNumber, episodeNumber));
      r == o.result && db.episodes == o.episodes && p.requests == old(p.requests) + (if o.asked then 1 else 0)
    ensures db.series == old(db.series) && db.movies == old(db.movies)
    ensures old(db.Valid()) ==> db.Valid()
  {
    r := db.GetEpisode(s.id, seasonNumber, episodeNumber);
    if r.Err? || r.value.Some? {
      return;
    }
    var answer := p.GetSpecificEpisode(s, seasonNumber, episodeNumber);
    if answer.None? {
      return Ok(None);
    }
    var ok := db.AddEpisode(answer.value, s);
    if !ok {
      return Err("year is before 1900");
    }
    r := Ok(answer);
  }

  // ---------------------------------------------------------------- do_episode_lookup

  /** A value given to a `%` conversion. */
  datatype FormatArg = IntArg(i: int) | StrArg(s: string)

  /** `'%i' % (v,)`: a number prints, a string raises TypeError. */
  function PercentI(v: FormatArg): Result<string>
  {
    match v
    case IntArg(i) => Ok(FormatInt(i, 0))
    case StrArg(_) => Err("TypeError: %i format: a number is required, not str")
  }

  /** `'%s' % (v,)`: any value prints, as its `str`. */
  function PercentS(v: FormatArg): Result<string>
  {
    match v
    case IntArg(i) => Ok(FormatInt(i, 0))
    case StrArg(t) => Ok(t)
  }

  /** The unknown-series branch of `do_episode_lookup`: the message formats
      the series id, which is still the text of the pattern, with the given
      conversion; 2 when that prints, 11 from the handler when it raises. */
  function UnknownSeriesCode(percent: FormatArg -> Result<string>, seriesIdText: string): int
  {
    if percent(StrArg(seriesIdText)).Ok? then 2 else 11
  }

  /** As written, with `%i`, the branch ends in 11 for every text, never in
      its 2. */
  lemma UnknownSeriesAsWrittenRaises(seriesIdText: string)
    ensures UnknownSeriesCode(PercentI, seriesIdText) == 11
  {
  }

  /** With `%s` the branch ends in its 2 for every text. */
  lemma UnknownSeriesReports(seriesIdText: string)
    ensures UnknownSeriesCode(PercentS, seriesIdText) == 2
  {
  }

  /** What an episode lookup prints and returns, and what it leaves in the
      cache and asks the remote guide. */
  datatype Lookup = Lookup(code: int, printed: seq<Episode>, episodes: seq<Db.EpisodeRow>, asked: nat)

  /** The loop storing the remote full list of a series, in order; an
      episode that cannot be stored raises, and those before it stay. */
  function FillCache(episodes: seq<Db.EpisodeRow>, list: seq<Episode>, seriesId: int): (seq<Db.EpisodeRow>, bool)
    requires forall k :: 0 <= k < |list| ==> ValidEpisode(list[k])
    decreases |list|
  {
    if list == [] then (episodes, true)
    else
      var added := Db.AddedEpisodes(episodes, list[0], seriesId);
      if added.None? then (episodes, false) else FillCache(added.value, list[1..], seriesId)
  }

  /** Filling keeps the rows there were and adds at most one row per listed
      episode, exactly one each when it runs to the end, each new row
      belonging to the series. */
  lemma {:induction false} FillCacheAppends(episodes: seq<Db.EpisodeRow>, list: seq<Episode>, seriesId: int)
    requires forall k :: 0 <= k < |list| ==> ValidEpisode(list[k])
    ensures var r := FillCache(episodes, list, seriesId);
      episodes <= r.0 && |r.0| <= |episodes| + |list| && (r.1 ==> |r.0| == |episodes| + |list|)
      && forall k :: |episodes| <= k < |r.0| ==> r.0[k].seriesId == seriesId
    decreases |list|
  {
    if list != [] {
      var added := Db.AddedEpisodes(episodes, list[0], seriesId);
      if added.Some? {
        FillCacheAppends(added.value, list[1..], seriesId);
      }
    }
  }

  /** The answer once the cache holds the series' episodes: all of them,
      one season, or one episode by the cache-aside fetch. */
  function LookupAnswer(parts: seq<string>, series: seq<Db.SeriesRow>, episodes: seq<Db.EpisodeRow>,
                        s: Series, asked: nat, p: Provider): Lookup
    requires 1 <= |parts| <= 3 && p.Sound()
  {
    if |parts| == 1 then
      var all := Db.ReadAll(Db.Joined(series, episodes, s.id, Db.AllOf), Db.ReadPair);
      if all.Err? then Lookup(11, [], episodes, asked) else Lookup(0, all.value, episodes, asked)
    else
      var season := ParseInt(parts[1]);
      if season.None? then Lookup(11, [], episodes, asked)
      else if |parts| == 2 then
        var some := Db.ReadAll(Db.Joined(series, episodes, s.id, Db.InSeason(season.value)), Db.ReadPair);
        if some.Err? then Lookup(11, [], episodes, asked) else Lookup(0, some.value, episodes, asked)
      else
        var number := ParseInt(parts[2]);
        if number.None? then Lookup(11, [], episodes, asked)
        else
          var o := SpecificEpisode(series, episodes, s, season.value, number.value, p.byNumber(s, season.value, number.value));
          var n := asked + (if o.asked then 1 else 0);
          if o.result.Err? then Lookup(11, [], o.episodes, n)
          else if o.result.value.None? then Lookup(3, [], o.episodes, n)
          else Lookup(0, [o.result.value.value], o.episodes, n)
  }

  /** `do_episode_lookup(pattern)` on the tables and the remote guide, with
      the conversion the unknown-series message uses. The series id stays
      the text of the pattern; the database compares it with the integer id
      column, which reads it as `int()` would. */
  function EpisodeLookupFrom(pattern: string, series: seq<Db.SeriesRow>, episodes: seq<Db.EpisodeRow>, p: Provider,
                             percent: FormatArg -> Result<string>): Lookup
    requires p.Sound()
  {
    var parts := Split(pattern, ':');
    if |parts| > 3 then Lookup(1, [], episodes, 0)
    else
      var key := ParseInt(parts[0]);
      var s := if key.Some? then Db.SeriesLookup(series, key.value) else None;
      if s.None? then Lookup(UnknownSeriesCode(percent, parts[0]), [], episodes, 0)
      else
        var existing := Db.ReadAll(Db.Joined(series, episodes, s.value.id, Db.AllOf), Db.ReadPair);
        if existing.Err? then Lookup(11, [], episodes, 0)
        else if |existing.value| == 0 then
          var fill := FillCache(episodes, p.fullList(s.value), s.value.id);
          if !fill.1 then Lookup(11, [], fill.0, 1)
          else LookupAnswer(parts, series, fill.0, s.value, 1, p)
        else LookupAnswer(parts, series, episodes, s.value, 0, p)
  }

  /** The lookup as written: the message uses `%i`. */
  function EpisodeLookupRun(pattern: string, series: seq<Db.SeriesRow>, episodes: seq<Db.EpisodeRow>, p: Provider): Lookup
    requires p.Sound()
  {
    EpisodeLookupFrom(pattern, series, episodes, p, PercentI)
  }

  /** The lookup as intended: the message uses `%s`. */
  function EpisodeLookupRunIntended(pattern: string, series: seq<Db.SeriesRow>, episodes: seq<Db.EpisodeRow>, p: Provider): Lookup
    requires p.Sound()
  {
    EpisodeLookupFrom(pattern, series, episodes, p, PercentS)
  }

  /** The two lookups differ only where the pattern's id names no cached
      series. */
  lemma LookupRunsAgree(pattern: string, series: seq<Db.SeriesRow>, episodes: seq<Db.EpisodeRow>, p: Provider)
    requires p.Sound()
    requires var parts := Split(pattern, ':');
      |parts| > 3 || (ParseInt(parts[0]).Some? && Db.SeriesLookup(series, ParseInt(parts[0]).value).Some?)
    ensures EpisodeLookupRun(pattern, series, episodes, p) == EpisodeLookupRunIntended(pattern, series, episodes, p)
  {
  }

  /** Only a pattern of more than three parts gives 1. */
  lemma LookupArity(pattern: string, series: seq<Db.SeriesRow>, episodes: seq<Db.EpisodeRow>, p: Provider)
    requires p.Sound()
    ensures EpisodeLookupRun(pattern, series, episodes, p).code == 1 <==> |Split(pattern, ':')| > 3
    ensures EpisodeLookupRun(pattern, series, episodes, p).code in {0, 1, 3, 11}
  {
    var parts := Split(pattern, ':');
    if |parts| <= 3 {
      var key := ParseInt(parts[0]);
      var s := if key.Some? then Db.SeriesLookup(series, key.value) else None;
      if s.Some? {
        var existing := Db.ReadAll(Db.Joined(series, episodes, s.value.id, Db.AllOf), Db.ReadPair);
        if existing.Ok? {
          if |existing.value| == 0 {
            var fill := FillCache(episodes, p.fullList(s.value), s.value.id);
            if fill.1 {
              AnswerCodes(parts, series, fill.0, s.value, 1, p);
            }
          } else {
            AnswerCodes(parts, series, episodes, s.value, 0, p);
          }
        }
      }
    }
  }

  /** Answering from the cache ends in 0, 3 or 11. */
  lemma AnswerCodes(parts: seq<string>, series: seq<Db.SeriesRow>, episodes: seq<Db.EpisodeRow>,
                    s: Series, asked: nat, p: Provider)
    requires 1 <= |parts| <= 3 && p.Sound()
    ensures LookupAnswer(parts, series, episodes, s, asked, p).code in {0, 3, 11}
  {
  }

  /** As written, an id that names no cached series gives 11, not its 2,
      touches nothing and asks nothing. */
  lemma LookupUnknownSeries(pattern: string, series: seq<Db.SeriesRow>, episodes: seq<Db.EpisodeRow>, p: Provider)
    requires p.Sound()
    requires var parts := Split(pattern, ':');
      |parts| <= 3 && (ParseInt(parts[0]).None? || Db.SeriesLookup(series, ParseInt(parts[0]).value).None?)
    ensures EpisodeLookupRun(pattern, series, episodes, p) == Lookup(11, [], episodes, 0)
  {
    UnknownSeriesAsWrittenRaises(Split(pattern, ':')[0]);
  }

  /** As intended, such an id gives 2, touches nothing and asks nothing. */
  lemma LookupUnknownSeriesIntended(pattern: string, series: seq<Db.SeriesRow>, episodes: seq<Db.EpisodeRow>, p: Provider)
    requires p.Sound()
    requires var parts := Split(pattern, ':');
      |parts| <= 3 && (ParseInt(parts[0]).None? || Db.SeriesLookup(series, ParseInt(parts[0]).value).None?)
    ensures EpisodeLookupRunIntended(pattern, series, episodes, p) == Lookup(2, [], episodes, 0)
  {
    UnknownSeriesReports(Split(pattern, ':')[0]);
  }

  /** A series with episodes in the cache is answered from it: at most the
      one remote request of a three-part pattern, none otherwise; a series
      with none gets the remote full list stored before anything else. */
  lemma LookupFillsOnlyEmptyCache(pattern: string, series: seq<Db.SeriesRow>, episodes: seq<Db.EpisodeRow>,
                                  p: Provider, s: Series)
    requires p.Sound()
    requires var parts := Split(pattern, ':');
      |parts| <= 3 && ParseInt(parts[0]).Some? && Db.SeriesLookup(series, ParseInt(parts[0]).value) == Some(s)
    requires Db.ReadAll(Db.Joined(series, episodes, s.id, Db.AllOf), Db.ReadPair).Ok?
    ensures var l := EpisodeLookupRun(pattern, series, episodes, p);
      var existing := Db.ReadAll(Db.Joined(series, episodes, s.id, Db.AllOf), Db.ReadPair).value;
      (|existing| > 0 ==> episodes <= l.episodes && l.asked <= (if |Split(pattern, ':')| == 3 then 1 else 0))
      && (|existing| == 0 ==> l.asked >= 1 && FillCache(episodes, p.fullList(s), s.id).0 <= l.episodes)
  {
    var parts := Split(pattern, ':');
    var existing := Db.ReadAll(Db.Joined(series, episodes, s.id, Db.AllOf), Db.ReadPair).value;
    if |existing| == 0 {
      var fill := FillCache(episodes, p.fullList(s), s.id);
      if fill.1 {
        AnswerExtends(parts, series, fill.0, s, 1, p);
      }
    } else {
      AnswerExtends(parts, series, episodes, s, 0, p);
    }
  }

  /** Answering adds at most the one fetched episode and one request. */
  lemma AnswerExtends(parts: seq<string>, series: seq<Db.SeriesRow>, episodes: seq<Db.EpisodeRow>,
                      s: Series, asked: nat, p: Provider)
    requires 1 <= |parts| <= 3 && p.Sound()
    ensures var l := LookupAnswer(parts, series, episodes, s, asked, p);
      episodes <= l.episodes && asked <= l.asked <= asked + (if |parts| == 3 then 1 else 0)
  {
    if |parts| == 3 && ParseInt(parts[1]).Some? && ParseInt(parts[2]).Some? {
      AnswerFetches(parts, series, episodes, s, asked, p);
    } else {
      AnswerReadsOnly(parts, series, episodes, s, asked, p);
    }
  }

  /** A lookup of all episodes or of one season, or a pattern whose season or
      number is not an integer, leaves the table and the request count alone. */
  lemma AnswerReadsOnly(parts: seq<string>, series: seq<Db.SeriesRow>, episodes: seq<Db.EpisodeRow>,
                        s: Series, asked: nat, p: Provider)
    requires 1 <= |parts| <= 3 && p.Sound()
    requires !(|parts| == 3 && ParseInt(parts[1]).Some? && ParseInt(parts[2]).Some?)
    ensures var l := LookupAnswer(parts, series, episodes, s, asked, p);
      l.episodes == episodes && l.asked == asked
  {
  }

  /** A lookup of one episode goes through the cache-aside fetch. */
  lemma AnswerFetches(parts: seq<string>, series: seq<Db.SeriesRow>, episodes: seq<Db.EpisodeRow>,
                      s: Series, asked: nat, p: Provider)
    requires |parts| == 3 && p.Sound() && ParseInt(parts[1]).Some? && ParseInt(parts[2]).Some?
    ensures var season, number := ParseInt(parts[1]).value, ParseInt(parts[2]).value;
      var o := SpecificEpisode(series, episodes, s, season, number, p.byNumber(s, season, number));
      var l := LookupAnswer(parts, series, episodes, s, asked, p);
      l.episodes == o.episodes && l.asked == asked + (if o.asked then 1 else 0)
      && episodes <= l.episodes
  {
    var season, number := ParseInt(parts[1]).value, ParseInt(parts[2]).value;
    SpecificExtends(series, episodes, s, season, number, p.byNumber(s, season, number));
  }

  /** The cache-aside fetch only ever appends to the episode table. */
  lemma SpecificExtends(series: seq<Db.SeriesRow>, episodes: seq<Db.EpisodeRow>, s: Series,
                        seasonNumber: int, episodeNumber: int, answer: Option<Episode>)
    requires answer.Some? ==> ValidEpisode(answer.value)
    ensures episodes <= SpecificEpisode(series, episodes, s, seasonNumber, episodeNumber, answer).episodes
  {
  }

  /** Storing the remote full list, one `add_episode` per episode. */
  method FillFromRemote(p: Provider, db: Db.Database, s: Series) returns (ok: bool)
    requires p.Sound()
    modifies db, p
    ensures (db.episodes, ok) == FillCache(old(db.episodes), p.fullList(s), s.id)
    ensures p.requests == old(p.requests) + 1
    ensures db.series == old(db.series) && db.movies == old(db.movies)
    ensures old(db.Valid()) ==> db.Valid()
  {
    var list := p.GetFullEpisodeList(s);
    for k := 0 to |list|
      invariant db.series == old(db.series) && db.movies == old(db.movies)
      invariant old(db.Valid()) ==> db.Valid()
      invariant p.requests == old(p.requests) + 1
      invariant FillCache(old(db.episodes), list, s.id) == FillCache(db.episodes, list[k..], s.id)
    {
      assert list[k..][1..] == list[k + 1..];
      ok := db.AddEpisode(list[k], s);
      if !ok {
        return false;
      }
    }
    return true;
  }

  /** `do_episode_lookup(pattern)`: the exit code and the episodes printed. */
  method DoEpisodeLookup(pattern: string, p: Provider, db: Db.Database) returns (code: int, printed: seq<Episode>)
    requires p.Sound()
    modifies db, p
    ensures var l := EpisodeLookupRun(pattern, old(db.series), old(db.episodes), p);
      code == l.code && printed == l.printed && db.episodes == l.episodes && p.requests == old(p.requests) + l.asked
    ensures db.series == old(db.series) && db.movies == old(db.movies)
    ensures old(db.Valid()) ==> db.Valid()
  {
    var parts := Split(pattern, ':');
    if |parts| > 3 {
      return 1, [];
    }
    var key := ParseInt(parts[0]);
    var s: Option<Series> := None;
    if key.Some? {
      s := db.GetSeries(key.value);
    }
    if s.None? {
      return UnknownSeriesCode(PercentI, parts[0]), [];
    }
    var existing := db.GetAllEpisodes(s.value.id);
    if existing.Err? {
      return 11, [];
    }
    var asked := 0;
    if |existing.value| == 0 {
      var ok := FillFromRemote(p, db, s.value);
      if !ok {
        return 11, [];
      }
      asked := 1;
    }
    code, printed := AnswerLookup(parts, p, db, s.value, asked);
  }

  /** The answering part of `do_episode_lookup`. */
  method AnswerLookup(parts: seq<string>, p: Provider, db: Db.Database, s: Series, ghost asked: nat)
    returns (code: int, printed: seq<Episode>)
    requires 1 <= |parts| <= 3 && p.Sound()
    modifies db, p
    ensures var l := LookupAnswer(parts, old(db.series), old(db.episodes), s, asked, p);
      code == l.code && printed == l.printed && db.episodes == l.episodes && p.requests == old(p.requests) + l.asked - asked
    ensures db.series == old(db.series) && db.movies == old(db.movies)
    ensures old(db.Valid()) ==> db.Valid()
  {
    if |parts| == 1 {
      var all := db.GetAllEpisodes(s.id);
      if all.Err? {
        return 11, [];
      }
      return 0, all.value;
    }
    var season := ParseInt(parts[1]);
    if season.None? {
      return 11, [];
    }
    if |parts| == 2 {
      var some := db.GetEpisodes(s.id, season.value);
      if some.Err? {
        return 11, [];
      }
      return 0, some.value;
    }
    var number := ParseInt(parts[2]);
    if number.None? {
      return 11, [];
    }
    var result := GetSpecificEpisode(p, db, s, season.value, number.value);
    if result.Err? {
      return 11, [];
    }
    if result.value.None? {
      return 3, [];
    }
    return 0, [result.value.value];
  }

  // ---------------------------------------------------------------- watch_series_guts

  /** `watch_series_guts(series_id_str, watch)`: 2 for an id that is not an
      integer, 3 for an id of no cached series, and 0 once the watch flag of
      that series is set; only then does the series table change. */
  method WatchSeriesGuts(seriesIdText: string, watch: bool, db: Db.Database) returns (code: int)
    modifies db
    ensures var key := ParseInt(seriesIdText);
      && (key.None? ==> code == 2)
      && (key.Some? && Db.SeriesLookup(old(db.series), key.value).None? ==> code == 3)
      && (key.Some? && Db.SeriesLookup(old(db.series), key.value).Some? ==>
            code == 0 && db.series == Db.WatchedTable(old(db.series), key.value, watch))
    ensures code != 0 ==> db.series == old(db.series)
    ensures db.episodes == old(db.episodes) && db.movies == old(db.movies)
    ensures old(db.Valid()) ==> db.Valid()
  {
    var seriesId := ParseInt(seriesIdText);
    if seriesId.None? {
      return 2;
    }
    var s := db.GetSeries(seriesId.value);
    if s.None? {
      return 3;
    }
    db.WatchSeries(s.value, watch);
    return 0;
  }

  // ---------------------------------------------------------------- process_file

  /** What the steps that touch the disk and the clock report:
      whether `copy_media_to_library` and `write_metadata` succeeded, and
      the clock's `%Y-%m-%d_%H-%M-%S_` text when `add_to_recent` runs. */
  datatype Steps = Steps(copied: bool, wroteMetadata: bool, stamp: string)

  /** Where `process_file` stopped. */
  datatype Processed = Unmatched | AlreadyInLibrary | CopyFailed | MetadataFailed | RecentFailed | Added

  /** The library file an identified file goes to. */
  function Destination(tvPath: string, fileName: string, e: Episode): string
  {
    PosixPath.Join(LibraryPath(tvPath, e), SeriesLibraryFileName(fileName, e))
  }

  /** The tree after a successful copy to `dest` in `libraryPath`: the
      library folder and the file are created, and a move also removes the
      input. */
  function Copied(t: Tree, inputPath: string, libraryPath: string, dest: string, move: bool): Tree
  {
    var left := if move then Tree(t.paths - {inputPath}, t.links - {inputPath}) else t;
    Tree(left.paths + {libraryPath, dest}, left.links)
  }

  /** The tree after the copy and the sidecar's write. */
  function Written(t: Tree, inputPath: string, libraryPath: string, dest: string, move: bool): Tree
  {
    var copied := Copied(t, inputPath, libraryPath, dest, move);
    Tree(copied.paths + {dest + PyTivoMetadataExt}, copied.links)
  }

  /** `process_file` on the tree, given what identifying the file gave (the
      file name, series and episode, or None) and what the steps report.
      The sidecar is written only in pyTivo format; `add_to_recent` then
      links the new file from the recent-additions folder, as RecentRun
      says. */
  function ProcessFileRun(t: Tree, inputPath: string, tvPath: string, info: Option<(string, Series, Episode)>,
                          steps: Steps, move: bool, pyTivo: bool, recentPath: string): (Processed, Tree)
  {
    if info.None? then (Unmatched, t)
    else
      var e := info.value.2;
      var libraryPath := LibraryPath(tvPath, e);
      var dest := Destination(tvPath, info.value.0, e);
      if Exists(t, dest) then (AlreadyInLibrary, t)
      else if !steps.copied then (CopyFailed, t)
      else if !pyTivo || !steps.wroteMetadata then (MetadataFailed, Copied(t, inputPath, libraryPath, dest, move))
      else
        var recent := RecentRun(Written(t, inputPath, libraryPath, dest, move), recentPath, libraryPath,
                                SeriesLibraryFileName(info.value.0, e), steps.stamp, pyTivo);
        (if recent.ok then Added else RecentFailed, recent.tree)
  }

  /** The file is never copied over an existing library file; the steps run
      in the order copy, metadata, recent, and the first that fails ends
      the run; nothing changes before a successful copy, and the file ends
      up in the library once it is copied. */
  lemma ProcessFileOrder(t: Tree, inputPath: string, tvPath: string, info: Option<(string, Series, Episode)>,
                         steps: Steps, move: bool, pyTivo: bool, recentPath: string)
    ensures var (r, u) := ProcessFileRun(t, inputPath, tvPath, info, steps, move, pyTivo, recentPath);
      && (info.Some? && Exists(t, Destination(tvPath, info.value.0, info.value.2)) ==> r == AlreadyInLibrary && u == t)
      && (r in {Unmatched, AlreadyInLibrary, CopyFailed} ==> u == t)
      && (r == CopyFailed <==> info.Some? && !Exists(t, Destination(tvPath, info.value.0, info.value.2)) && !steps.copied)
      && (r == MetadataFailed <==> info.Some? && !Exists(t, Destination(tvPath, info.value.0, info.value.2))
                                   && steps.copied && (!pyTivo || !steps.wroteMetadata))
      && (r in {RecentFailed, Added} <==> info.Some? && !Exists(t, Destination(tvPath, info.value.0, info.value.2))
                                          && steps.copied && pyTivo && steps.wroteMetadata)
      && (r in {MetadataFailed, RecentFailed, Added} ==> Destination(tvPath, info.value.0, info.value.2) in u.paths)
  {
    if info.Some? {
      var e := info.value.2;
      var libraryPath := LibraryPath(tvPath, e);
      var dest := Destination(tvPath, info.value.0, e);
      if !Exists(t, dest) && steps.copied && pyTivo && steps.wroteMetadata {
        var w := Written(t, inputPath, libraryPath, dest, move);
        assert dest in w.paths;
        RecentRunGrows(w, recentPath, libraryPath, SeriesLibraryFileName(info.value.0, e), steps.stamp, pyTivo);
      }
    }
  }

  /** Once copied and described, the file is a recent addition exactly
      when `add_to_recent` raised nothing; the recent-additions folder then
      exists and holds a link to the library file and one to its sidecar. */
  lemma ProcessFileRecent(t: Tree, inputPath: string, tvPath: string, info: Option<(string, Series, Episode)>,
                          steps: Steps, move: bool, recentPath: string)
    requires LinksExist(t)
    requires info.Some? && !Exists(t, Destination(tvPath, info.value.0, info.value.2)) && steps.copied && steps.wroteMetadata
    ensures var (r, u) := ProcessFileRun(t, inputPath, tvPath, info, steps, move, true, recentPath);
      var e := info.value.2;
      var dest := Destination(tvPath, info.value.0, e);
      var recent := RecentRun(Written(t, inputPath, LibraryPath(tvPath, e), dest, move), recentPath, LibraryPath(tvPath, e),
                              SeriesLibraryFileName(info.value.0, e), steps.stamp, true);
      var recentFilePath := PosixPath.Join(recentPath, RecentName(steps.stamp, SeriesLibraryFileName(info.value.0, e)));
      && u == recent.tree && (r == Added <==> recent.ok) && LinksExist(u)
      && (r == Added ==> Exists(u, recentPath) && dest in u.paths && dest + PyTivoMetadataExt in u.paths
                         && recentFilePath in u.links && u.links[recentFilePath] == dest
                         && recentFilePath + PyTivoMetadataExt in u.links
                         && u.links[recentFilePath + PyTivoMetadataExt] == dest + PyTivoMetadataExt)
  {
    var e := info.value.2;
    var dest := Destination(tvPath, info.value.0, e);
    var w := Written(t, inputPath, LibraryPath(tvPath, e), dest, move);
    assert LinksExist(w);
    RecentRunEffect(w, recentPath, LibraryPath(tvPath, e), SeriesLibraryFileName(info.value.0, e), steps.stamp, true);
  }

  /** `process_file(file_manager, input_file_path, tv_path, move)`. */
  method ProcessFile(fm: FileManager, inputPath: string, tvPath: string,
                     info: Option<(string, Series, Episode)>, steps: Steps, move: bool) returns (r: Processed)
    modifies fm.fs
    ensures (r, Tree(fm.fs.paths, fm.fs.links))
         == ProcessFileRun(old(Tree(fm.fs.paths, fm.fs.links)), inputPath, tvPath, info, steps, move, fm.PyTivo(), fm.recentPath)
  {
    if info.None? {
      return Unmatched;
    }
    var (fileName, _, episode) := info.value;
    var libraryPath := LibraryPath(tvPath, episode);
    var libraryFileName := SeriesLibraryFileName(fileName, episode);
    var dest := PosixPath.Join(libraryPath, libraryFileName);
    if Exists(Tree(fm.fs.paths, fm.fs.links), dest) {
      return AlreadyInLibrary;
    }
    if !steps.copied {
      return CopyFailed;
    }
    if move {
      fm.fs.paths := fm.fs.paths - {inputPath};
      fm.fs.links := fm.fs.links - {inputPath};
    }
    fm.fs.paths := fm.fs.paths + {libraryPath, dest};
    if !fm.PyTivo() || !steps.wroteMetadata {
      return MetadataFailed;
    }
    fm.fs.paths := fm.fs.paths + {dest + PyTivoMetadataExt};
    var added := fm.AddToRecent(libraryPath, libraryFileName, steps.stamp);
    if !added {
      return RecentFailed;
    }
    return Added;
  }

  // ---------------------------------------------------------------- do_process

  /** A file found by the walk, read as a media file. */
  function IsMediaEntry(extensions: seq<string>): ((string, string)) -> bool
  {
    (entry: (string, string)) => MediaName(entry.1, extensions)
  }

  /** The walk's loop collecting the media files, in walk order. */
  method CollectMediaFiles(walk: seq<(string, string)>, extensions: seq<string>) returns (files: seq<(string, string)>)
    ensures files == Filter(walk, IsMediaEntry(extensions))
  {
    files := [];
    for k := 0 to |walk|
      invariant files == Filter(walk[..k], IsMediaEntry(extensions))
    {
      assert walk[..k + 1] == walk[..k] + [walk[k]];
      FilterAppend(walk[..k], walk[k], IsMediaEntry(extensions));
      var media := IsMediaFile(walk[k].1, extensions);
      if media {
        files := files + [walk[k]];
      }
    }
    assert walk[..|walk|] == walk;
  }

  /** The loop of `do_process` over the collected files: each that is still
      a file is processed, in order. */
  function ProcessAll(t: Tree, files: seq<(string, string)>, tvPath: string,
                      infoOf: string -> Option<(string, Series, Episode)>, stepsOf: string -> Steps,
                      move: bool, pyTivo: bool, recentPath: string): Tree
    decreases |files|
  {
    if files == [] then t
    else
      var before := ProcessAll(t, files[..|files| - 1], tvPath, infoOf, stepsOf, move, pyTivo, recentPath);
      var (root, file) := files[|files| - 1];
      var filePath := PosixPath.Join(root, file);
      if Exists(before, filePath) then
        ProcessFileRun(before, filePath, tvPath, infoOf(filePath), stepsOf(filePath), move, pyTivo, recentPath).1
      else before
  }

  /** When copying, processing removes no name and neither adds nor
      redirects a link on a name that was there: it only adds names, so
      whatever existed still exists. */
  lemma {:induction false} ProcessAllKeeps(t: Tree, files: seq<(string, string)>, tvPath: string,
                                           infoOf: string -> Option<(string, Series, Episode)>, stepsOf: string -> Steps,
                                           pyTivo: bool, recentPath: string)
    ensures var r := ProcessAll(t, files, tvPath, infoOf, stepsOf, false, pyTivo, recentPath);
      && t.paths <= r.paths
      && (forall q :: q in t.paths ==> (q in r.links <==> q in t.links))
      && (forall q :: q in t.paths && q in t.links ==> r.links[q] == t.links[q])
      && (forall q :: Exists(t, q) ==> Exists(r, q))
    decreases |files|
  {
    if files != [] {
      var init := files[..|files| - 1];
      ProcessAllKeeps(t, init, tvPath, infoOf, stepsOf, pyTivo, recentPath);
      var before := ProcessAll(t, init, tvPath, infoOf, stepsOf, false, pyTivo, recentPath);
      var (root, file) := files[|files| - 1];
      var filePath := PosixPath.Join(root, file);
      if Exists(before, filePath) {
        FileRunKeeps(before, filePath, tvPath, infoOf(filePath), stepsOf(filePath), pyTivo, recentPath);
      }
    }
  }

  /** The same for one file. */
  lemma FileRunKeeps(t: Tree, inputPath: string, tvPath: string, info: Option<(string, Series, Episode)>,
                     steps: Steps, pyTivo: bool, recentPath: string)
    ensures var u := ProcessFileRun(t, inputPath, tvPath, info, steps, false, pyTivo, recentPath).1;
      && t.paths <= u.paths
      && (forall q :: q in t.paths ==> (q in u.links <==> q in t.links))
      && (forall q :: q in t.paths && q in t.links ==> u.links[q] == t.links[q])
  {
    if info.Some? {
      var e := info.value.2;
      var libraryPath := LibraryPath(tvPath, e);
      var dest := Destination(tvPath, info.value.0, e);
      if !Exists(t, dest) && steps.copied && pyTivo && steps.wroteMetadata {
        var w := Written(t, inputPath, libraryPath, dest, false);
        assert t.paths <= w.paths && w.links == t.links;
        RecentRunGrows(w, recentPath, libraryPath, SeriesLibraryFileName(info.value.0, e), steps.stamp, pyTivo);
      }
    }
  }

  /** How `do_process` ends after the lock is taken: 1 or 2 for a missing
      input or library folder, else the processing and the clean-up, which
      gives 11 when it raises. `None` is the return on success; its exit
      status is 0. */
  datatype Run = Run(code: int, tree: Tree)

  function ProcessRun(t: Tree, inputPath: string, tvPath: string, files: seq<(string, string)>,
                      infoOf: string -> Option<(string, Series, Episode)>, stepsOf: string -> Steps, move: bool,
                      pyTivo: bool, recentPath: string, entries: seq<string>, ageOf: string -> int,
                      recentMinutes: int, extensions: seq<string>): (r: Run)
    ensures r.code in {0, 1, 2, 11}
    ensures r.code == 1 <==> !Exists(t, inputPath)
    ensures r.code == 2 <==> Exists(t, inputPath) && !Exists(t, tvPath)
    ensures r.code in {1, 2} ==> r.tree == t
  {
    if !Exists(t, inputPath) then Run(1, t)
    else if !Exists(t, tvPath) then Run(2, t)
    else
      var processed := ProcessAll(t, files, tvPath, infoOf, stepsOf, move, pyTivo, recentPath);
      var s := SweepAll(processed.paths, processed.links, recentPath, entries, ageOf, recentMinutes, extensions, pyTivo);
      Run(if s.ok then 0 else 11, Tree(processed.paths - s.removed, processed.links - s.removed))
  }

  /** Without the recent-additions folder, the clean-up's listing raises:
      the run gives 11 after the files were processed, and nothing is swept. */
  lemma ProcessRunNeedsRecentFolder(t: Tree, inputPath: string, tvPath: string, files: seq<(string, string)>,
                                    infoOf: string -> Option<(string, Series, Episode)>, stepsOf: string -> Steps,
                                    move: bool, pyTivo: bool, recentPath: string, entries: seq<string>,
                                    ageOf: string -> int, recentMinutes: int, extensions: seq<string>)
    requires Exists(t, inputPath) && Exists(t, tvPath)
    requires !Exists(ProcessAll(t, files, tvPath, infoOf, stepsOf, move, pyTivo, recentPath), recentPath)
    ensures ProcessRun(t, inputPath, tvPath, files, infoOf, stepsOf, move, pyTivo, recentPath, entries, ageOf, recentMinutes, extensions)
         == Run(11, ProcessAll(t, files, tvPath, infoOf, stepsOf, move, pyTivo, recentPath))
  {
    var processed := ProcessAll(t, files, tvPath, infoOf, stepsOf, move, pyTivo, recentPath);
    SweepMissingFolder(processed.paths, processed.links, recentPath, entries, ageOf, recentMinutes, extensions, pyTivo);
  }

  /** A first run that adds its one file creates the recent-additions
      folder, so the clean-up finds it: with the folder listing the new
      link and its sidecar link, the run ends with 0, whatever their age. */
  lemma AddedRunEndsClean(t: Tree, inputPath: string, tvPath: string, root: string, file: string,
                          infoOf: string -> Option<(string, Series, Episode)>, stepsOf: string -> Steps,
                          recentPath: string, ageOf: string -> int, recentMinutes: int, extensions: seq<string>)
    requires LinksExist(t) && Exists(t, inputPath) && Exists(t, tvPath)
    requires Exists(t, PosixPath.Join(root, file)) && infoOf(PosixPath.Join(root, file)).Some?
    requires var filePath := PosixPath.Join(root, file);
      ProcessFileRun(t, filePath, tvPath, infoOf(filePath), stepsOf(filePath), false, true, recentPath).0 == Added
    requires var filePath := PosixPath.Join(root, file);
      var info := infoOf(filePath).value;
      !MediaName(RecentName(stepsOf(filePath).stamp, SeriesLibraryFileName(info.0, info.2)) + PyTivoMetadataExt, extensions)
    ensures var filePath := PosixPath.Join(root, file);
      var info := infoOf(filePath).value;
      var name := RecentName(stepsOf(filePath).stamp, SeriesLibraryFileName(info.0, info.2));
      ProcessRun(t, inputPath, tvPath, [(root, file)], infoOf, stepsOf, false, true, recentPath,
                 [name, name + PyTivoMetadataExt], ageOf, recentMinutes, extensions).code == 0
  {
    var filePath := PosixPath.Join(root, file);
    var info := infoOf(filePath).value;
    var name := RecentName(stepsOf(filePath).stamp, SeriesLibraryFileName(info.0, info.2));
    var u := ProcessFileRun(t, filePath, tvPath, infoOf(filePath), stepsOf(filePath), false, true, recentPath).1;
    ProcessFileOrder(t, filePath, tvPath, infoOf(filePath), stepsOf(filePath), false, true, recentPath);
    ProcessFileRecent(t, filePath, tvPath, infoOf(filePath), stepsOf(filePath), false, recentPath);
    assert ProcessAll(t, [(root, file)], tvPath, infoOf, stepsOf, false, true, recentPath) == u;
    SweepAddedEntry(u, recentPath, name, ageOf, recentMinutes, extensions);
  }

  /** The clean-up over a listing of a recent link to an existing file and
      its sidecar link raises nothing. */
  lemma SweepAddedEntry(u: Tree, recentPath: string, name: string, ageOf: string -> int, recentMinutes: int,
                        extensions: seq<string>)
    requires LinksExist(u) && Exists(u, recentPath) && !MediaName(name + PyTivoMetadataExt, extensions)
    requires var full := PosixPath.Join(recentPath, name);
      full in u.links && u.links[full] in u.paths && full + PyTivoMetadataExt in u.links
    ensures SweepAll(u.paths, u.links, recentPath, [name, name + PyTivoMetadataExt], ageOf, recentMinutes, extensions, true).ok
  {
    var names := [name, name + PyTivoMetadataExt];
    assert names[..1] == [name] && [name][..0] == [];
    assert Tree(u.paths - {}, u.links - {}) == u;
    assert SweepAll(u.paths, u.links, recentPath, [name], ageOf, recentMinutes, extensions, true).ok;
  }

  /** `do_process(move)`, given the walk of the input folder, the listing of
      the recent-additions folder, the ages of its entries, and for each
      file what identifying it gives and what its steps report: 3 without
      doing anything when the lock is held; otherwise the run of ProcessRun
      on the media files, after which the lock is released on every path. */
  method DoProcess(fm: FileManager, inputPath: string, tvPath: string, walk: seq<(string, string)>,
                   infoOf: string -> Option<(string, Series, Episode)>, stepsOf: string -> Steps, move: bool,
                   entries: seq<string>, ageOf: string -> int) returns (code: int)
    modifies fm.fs
    ensures code == 3 <==> fm.lockFilePath in old(fm.fs.paths)
    ensures fm.lockFilePath !in old(fm.fs.paths) ==> fm.lockFilePath !in fm.fs.paths
    ensures fm.lockFilePath in old(fm.fs.paths) ==> code == 3 && fm.fs.paths == old(fm.fs.paths) && fm.fs.links == old(fm.fs.links)
    ensures fm.lockFilePath !in old(fm.fs.paths) ==>
      var run := ProcessRun(Tree(old(fm.fs.paths) + {fm.lockFilePath}, old(fm.fs.links)), inputPath, tvPath,
                            Filter(walk, IsMediaEntry(fm.fileExtensions)), infoOf, stepsOf, move, fm.PyTivo(),
                            fm.recentPath, entries, ageOf, fm.recentDurationInMinutes, fm.fileExtensions);
      code == run.code && fm.fs.paths == ReleaseLock(run.tree.paths, fm.lockFilePath)
      && fm.fs.links == (if fm.lockFilePath in run.tree.paths then run.tree.links - {fm.lockFilePath} else run.tree.links)
  {
    var lock := fm.GetProcessLock();
    if lock.None? {
      return 3;
    }
    code := ProcessHeld(fm, inputPath, tvPath, walk, infoOf, stepsOf, move, entries, ageOf);
    fm.RelinquishProcessLock();
  }

  /** The body of `do_process` inside `try`, while the lock is held. */
  method ProcessHeld(fm: FileManager, inputPath: string, tvPath: string, walk: seq<(string, string)>,
                     infoOf: string -> Option<(string, Series, Episode)>, stepsOf: string -> Steps, move: bool,
                     entries: seq<string>, ageOf: string -> int) returns (code: int)
    modifies fm.fs
    ensures var run := ProcessRun(old(Tree(fm.fs.paths, fm.fs.links)), inputPath, tvPath,
                                  Filter(walk, IsMediaEntry(fm.fileExtensions)), infoOf, stepsOf, move, fm.PyTivo(),
                                  fm.recentPath, entries, ageOf, fm.recentDurationInMinutes, fm.fileExtensions);
      code == run.code && Tree(fm.fs.paths, fm.fs.links) == run.tree
  {
    if !Exists(Tree(fm.fs.paths, fm.fs.links), inputPath) {
      return 1;
    }
    if !Exists(Tree(fm.fs.paths, fm.fs.links), tvPath) {
      return 2;
    }
    var files := CollectMediaFiles(walk, fm.fileExtensions);
    ProcessFiles(fm, files, tvPath, infoOf, stepsOf, move);
    var ok := fm.CleanupRecentFolder(entries, ageOf);
    code := if ok then 0 else 11;
  }

  /** The loop of `do_process` calling `process_file` on each collected
      file that is still a file. */
  method ProcessFiles(fm: FileManager, files: seq<(string, string)>, tvPath: string,
                      infoOf: string -> Option<(string, Series, Episode)>, stepsOf: string -> Steps, move: bool)
    modifies fm.fs
    ensures Tree(fm.fs.paths, fm.fs.links)
         == ProcessAll(old(Tree(fm.fs.paths, fm.fs.links)), files, tvPath, infoOf, stepsOf, move, fm.PyTivo(), fm.recentPath)
  {
    ghost var t0 := Tree(fm.fs.paths, fm.fs.links);
    for k := 0 to |files|
      invariant Tree(fm.fs.paths, fm.fs.links) == ProcessAll(t0, files[..k], tvPath, infoOf, stepsOf, move, fm.PyTivo(), fm.recentPath)
    {
      assert files[..k + 1][..k] == files[..k];
      var (root, file) := files[k];
      var filePath := PosixPath.Join(root, file);
      if Exists(Tree(fm.fs.paths, fm.fs.links), filePath) {
        var _ := ProcessFile(fm, filePath, tvPath, infoOf(filePath), stepsOf(filePath), move);
      }
    }
    assert files[..|files|] == files;
  }
}
