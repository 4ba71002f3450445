/** database.py: the local cache of series, episodes and movies. The sqlite3
    tables are sequences of rows in insertion order; a query is a filter over
    them, and a row is turned back into a record by the create_*_from_row
    readers. */
module Database {
  import opened Wrappers
  import opened PyStr
  import opened DateTimes
  import opened Metadata
  import opened Seqs

  // ---------------------------------------------------------------- rows

  /** A row of the `series` table; `watch` is the stored 0 or 1. */
  datatype SeriesRow = SeriesRow(
    id: int, zap2itId: string, imdbId: string, title: string, description: string,
    actors: string, genres: string, contentRating: string, watch: int)

  /** A row of the `episodes` table; `id` is the row id sqlite3 assigns. */
  datatype EpisodeRow = EpisodeRow(
    id: int, seriesId: int, title: string, description: string,
    seasonNumber: nat, episodeNumber: nat, originalAirDate: string, rating: real,
    director: string, host: string, choreographer: string, guestStars: string,
    writers: string, executiveProducers: string, producers: string)

  /** A row of the `movies` table; `time` is None where the column is NULL. */
  datatype MovieRow = MovieRow(
    id: int, imdbId: int, title: string, description: string, time: Option<string>,
    rating: real, directors: string, writers: string, producers: string, actors: string,
    movieYear: int, mpaaRating: string, genres: string)

  // ---------------------------------------------------------------- list columns

  /** A list column is stored as `'|'.join(items)`. */
  function Stored(items: seq<string>): string
  {
    Join("|", items)
  }

  /** A list column is read back with `text.split('|')`. */
  function Loaded(text: string): (items: seq<string>)
    ensures |items| >= 1
  {
    Split(text, '|')
  }

  predicate PipeFree(items: seq<string>)
  {
    forall k :: 0 <= k < |items| ==> '|' !in items[k]
  }

  /** What a stored list reads back as: the list itself, except that an empty
      list comes back as one empty string. */
  function Reloaded(items: seq<string>): seq<string>
  {
    if items == [] then [""] else items
  }

  lemma ListRoundTrip(items: seq<string>)
    requires PipeFree(items)
    ensures Loaded(Stored(items)) == Reloaded(items)
  {
    if items != [] {
      SplitJoin(items, '|');
    }
  }

  function WatchFlag(watch: bool): int
  {
    if watch then 1 else 0
  }

  // ---------------------------------------------------------------- series

  /** The row `add_series` inserts for s. */
  function SeriesToRow(s: Series): SeriesRow
  {
    SeriesRow(s.id, s.zap2itId, s.imdbId, s.title, s.description,
      Stored(s.actors), Stored(s.genres), s.contentRating, WatchFlag(s.watch))
  }

  /** `create_series_from_row`: every column but `db_id`, which keeps its default. */
  function CreateSeriesFromRow(r: SeriesRow): (s: Series)
    ensures s.id == r.id && s.title == r.title && s.dbId == 0
    ensures s.watch <==> r.watch == 1
  {
    Series(r.id, 0, r.title, r.description, r.zap2itId, r.imdbId, r.watch == 1,
      Loaded(r.actors), Loaded(r.genres), r.contentRating)
  }

  /** A stored series reads back as itself, up to `db_id` and empty lists. */
  lemma SeriesRoundTrip(s: Series)
    requires PipeFree(s.actors) && PipeFree(s.genres)
    ensures CreateSeriesFromRow(SeriesToRow(s))
         == s.(dbId := 0, actors := Reloaded(s.actors), genres := Reloaded(s.genres))
  {
    ListRoundTrip(s.actors);
    ListRoundTrip(s.genres);
  }

  // ---------------------------------------------------------------- dates

  datatype Format = DateFormat | TimeFormat

  /** `get_datetime_from_string`: None for a missing or empty string, else
      `strptime` in the given format, which raises (Err) on a mismatch. */
  function GetDatetimeFromString(input: Option<string>, format: Format): (r: Result<Option<DateTime>>)
    ensures input.None? || input.value == "" ==> r == Ok(None)
    ensures r.Ok? && r.value.Some? ==> Valid(r.value.value)
    ensures r.Ok? && r.value.Some? && format == DateFormat ==> Some(r.value.value) == StrptimeYmd(input.value)
    ensures r.Ok? && r.value.Some? && format == TimeFormat ==> Some(r.value.value) == StrptimeTime(input.value)
    ensures r.Err? <==> (input.Some? && input.value != ""
                         && (if format == DateFormat then StrptimeYmd(input.value) else StrptimeTime(input.value)).None?)
  {
    if input.None? || input.value == "" then Ok(None)
    else
      var t := if format == DateFormat then StrptimeYmd(input.value) else StrptimeTime(input.value);
      if t.None? then Err("time data does not match format") else Ok(t)
  }

  /** The air-date column text: '' for no air date, else `strftime('%Y-%m-%d')`,
      which raises (None) for a year before 1900. */
  function AirDateText(air: Option<DateTime>): (r: Option<string>)
    requires air.Some? ==> Valid(air.value)
    ensures r.None? <==> air.Some? && air.value.year < 1900
  {
    if air.None? then Some("") else StrftimeYmd(air.value)
  }

  /** An air-date column `create_episode_from_row` can read without raising. */
  predicate AirDateReadable(text: string)
  {
    Strip(text) == "" || StrptimeYmd(text).Some?
  }

  // ---------------------------------------------------------------- episodes

  /** The row `add_episode(e, s)` inserts with row id `id`: it is keyed by the
      id of the series argument, not of `e.series`, and the recording time is
      not stored. None where `strftime` raises. */
  function EpisodeToRow(e: Episode, seriesId: int, id: int): (r: Option<EpisodeRow>)
    requires ValidEpisode(e)
    ensures r.None? <==> e.originalAirDate.Some? && e.originalAirDate.value.year < 1900
  {
    var air := AirDateText(e.originalAirDate);
    if air.None? then None
    else Some(EpisodeRow(id, seriesId, e.title, e.description, e.seasonNumber, e.episodeNumber,
      air.value, e.rating, Stored(e.directors), e.host, e.choreographer, Stored(e.guestStars),
      Stored(e.writers), Stored(e.executiveProducers), Stored(e.producers)))
  }

  /** `create_episode_from_row` on the joined series and episode columns: the
      series part comes from the series row, an all-blank air date reads as
      None, and any other air date is parsed, raising (Err) when it does not
      match. The recording time keeps the `Episode()` default. */
  function CreateEpisodeFromRow(s: SeriesRow, r: EpisodeRow): (res: Result<Episode>)
    ensures res.Err? <==> !AirDateReadable(r.originalAirDate)
    ensures res.Ok? ==> ValidEpisode(res.value)
    ensures res.Ok? ==> (res.value.dbId == r.id && res.value.series == CreateSeriesFromRow(s)
                         && res.value.seasonNumber == r.seasonNumber && res.value.episodeNumber == r.episodeNumber)
  {
    var air := if Strip(r.originalAirDate) != "" then GetDatetimeFromString(Some(r.originalAirDate), DateFormat)
               else Ok(None);
    if air.Err? then Err(air.error)
    else Ok(Episode(r.id, r.title, r.description, Epoch, r.rating, r.host, r.choreographer,
      Loaded(r.director), Loaded(r.guestStars), Loaded(r.writers), Loaded(r.executiveProducers),
      Loaded(r.producers), CreateSeriesFromRow(s), r.seasonNumber, r.episodeNumber, air.value))
  }

  predicate EpisodeListsPipeFree(e: Episode)
  {
    PipeFree(e.directors) && PipeFree(e.guestStars) && PipeFree(e.writers)
    && PipeFree(e.executiveProducers) && PipeFree(e.producers)
  }

  /** The air date an episode reads back with: the same day at midnight. */
  function AirDateReadBack(air: Option<DateTime>): Option<DateTime>
  {
    if air.None? then None else Some(Midnight(air.value))
  }

  /** The air-date text `add_episode` writes is always readable. */
  lemma StoredAirDateReadable(air: Option<DateTime>)
    requires air.Some? ==> Valid(air.value)
    requires AirDateText(air).Some?
    ensures AirDateReadable(AirDateText(air).value)
  {
    if air.Some? {
      StrptimeStrftimeYmd(air.value);
    }
  }

  /** The episode a stored episode reads back as: the given row id, the
      series read back from its series row, the air date at midnight (None
      stays None), the default recording time and the person lists as they
      round-trip. */
  function StoredEpisode(e: Episode, s: SeriesRow, id: int): Episode
  {
    e.(dbId := id, time := Epoch, series := CreateSeriesFromRow(s),
       originalAirDate := AirDateReadBack(e.originalAirDate),
       directors := Reloaded(e.directors), guestStars := Reloaded(e.guestStars),
       writers := Reloaded(e.writers), executiveProducers := Reloaded(e.executiveProducers),
       producers := Reloaded(e.producers))
  }

  lemma EpisodeRoundTrip(e: Episode, s: SeriesRow, id: int)
    requires ValidEpisode(e) && EpisodeListsPipeFree(e)
    requires e.originalAirDate.Some? ==> e.originalAirDate.value.year >= 1900
    ensures EpisodeToRow(e, s.id, id).Some?
    ensures CreateEpisodeFromRow(s, EpisodeToRow(e, s.id, id).value) == Ok(StoredEpisode(e, s, id))
  {
    AirDateRoundTrip(e.originalAirDate);
    ListRoundTrip(e.directors);
    ListRoundTrip(e.guestStars);
    ListRoundTrip(e.writers);
    ListRoundTrip(e.executiveProducers);
    ListRoundTrip(e.producers);
  }

  /** The air-date column reads back as the air date at midnight. */
  lemma AirDateRoundTrip(air: Option<DateTime>)
    requires air.Some? ==> Valid(air.value) && air.value.year >= 1900
    ensures AirDateText(air).Some?
    ensures var text := AirDateText(air).value;
      (if Strip(text) != "" then GetDatetimeFromString(Some(text), DateFormat) else Ok(None)) == Ok(AirDateReadBack(air))
  {
    if air.Some? {
      var t := air.value;
      YmdShape(t);
      StrptimeStrftimeYmd(t);
      var text := AirDateText(air).value;
      assert !IsSpace(text[0]);
      StripEmptyIff(text);
    }
  }

  // ---------------------------------------------------------------- movies

  /** The row `add_movie` inserts with row id `id`: sqlite3 stores a datetime
      as `isoformat(' ')` and None as NULL; host, choreographer, guest stars
      and executive producers are not stored. */
  function MovieToRow(m: Movie, id: int): MovieRow
    requires m.time.Some? ==> Valid(m.time.value)
  {
    MovieRow(id, m.id, m.title, m.description,
      if m.time.Some? then Some(IsoFormat(m.time.value)) else None,
      m.rating, Stored(m.directors), Stored(m.writers), Stored(m.producers), Stored(m.actors),
      m.movieYear, m.mpaaRating, Stored(m.genres))
  }

  /** `create_movie_from_row`: a NULL time raises (`None.strip()`), an
      all-blank time reads as None, any other is parsed and raises when it
      does not match. */
  function CreateMovieFromRow(r: MovieRow): (res: Result<Movie>)
    ensures r.time.None? ==> res.Err?
    ensures res.Ok? ==> res.value.dbId == r.id && res.value.id == r.imdbId
  {
    if r.time.None? then Err("'NoneType' object has no attribute 'strip'")
    else
      var t := if Strip(r.time.value) != "" then GetDatetimeFromString(r.time, TimeFormat) else Ok(None);
      if t.Err? then Err(t.error)
      else Ok(Movie(r.id, r.imdbId, r.title, r.description, t.value, r.rating, "", "",
        Loaded(r.directors), [], Loaded(r.writers), [], Loaded(r.producers), Loaded(r.actors),
        r.movieYear, r.mpaaRating, Loaded(r.genres)))
  }

  predicate MovieListsPipeFree(m: Movie)
  {
    PipeFree(m.directors) && PipeFree(m.writers) && PipeFree(m.producers)
    && PipeFree(m.actors) && PipeFree(m.genres)
  }

  /** The movie a stored movie reads back as: the given row id, the columns
      that are not stored at their defaults, the lists as they round-trip. */
  function StoredMovie(m: Movie, id: int): Movie
  {
    m.(dbId := id, host := "", choreographer := "", guestStars := [], executiveProducers := [],
       directors := Reloaded(m.directors), writers := Reloaded(m.writers),
       producers := Reloaded(m.producers), actors := Reloaded(m.actors),
       genres := Reloaded(m.genres))
  }

  /** A stored movie with a time reads back with that time; one stored
      without a time can never be read back. */
  lemma MovieRoundTrip(m: Movie, id: int)
    requires m.time.Some? ==> Valid(m.time.value)
    requires MovieListsPipeFree(m)
    ensures m.time.None? ==> CreateMovieFromRow(MovieToRow(m, id)).Err?
    ensures m.time.Some? ==> CreateMovieFromRow(MovieToRow(m, id)) == Ok(StoredMovie(m, id))
  {
    if m.time.Some? {
      MovieTimeRoundTrip(m.time.value);
      ListRoundTrip(m.directors);
      ListRoundTrip(m.writers);
      ListRoundTrip(m.producers);
      ListRoundTrip(m.actors);
      ListRoundTrip(m.genres);
    }
  }

  /** The time column of a stored movie reads back as that time. */
  lemma MovieTimeRoundTrip(t: DateTime)
    requires Valid(t)
    ensures Strip(IsoFormat(t)) != ""
    ensures GetDatetimeFromString(Some(IsoFormat(t)), TimeFormat) == Ok(Some(t))
  {
    var text := IsoFormat(t);
    StrptimeIsoFormat(t);
    YmdShape(t);
    assert text[0] == Ymd(t)[0];
    assert !IsSpace(text[0]);
    StripEmptyIff(text);
  }

  // ---------------------------------------------------------------- queries

  predicate UniqueSeriesIds(rows: seq<SeriesRow>)
  {
    forall i, j :: 0 <= i < j < |rows| ==> rows[i].id != rows[j].id
  }

  /** The condition `id=?`. */
  function HasId(id: int): SeriesRow -> bool
  {
    (x: SeriesRow) => x.id == id
  }

  /** `where id=?` on the series table. */
  function SeriesWithId(rows: seq<SeriesRow>, id: int): (r: seq<SeriesRow>)
    ensures forall x :: x in r <==> x in rows && x.id == id
  {
    Filter(rows, HasId(id))
  }

  /** With unique ids, the series query finds exactly the row with that id. */
  lemma {:induction false} SeriesWithIdUnique(rows: seq<SeriesRow>, i: int)
    requires UniqueSeriesIds(rows) && 0 <= i < |rows|
    ensures SeriesWithId(rows, rows[i].id) == [rows[i]]
    decreases |rows|
  {
    var n := |rows| - 1;
    var init := rows[..n];
    assert UniqueSeriesIds(init);
    if i == n {
      FilterEmpty(init, HasId(rows[i].id));
    } else {
      SeriesWithIdUnique(init, i);
    }
  }

  /** `get_series(id)`: the series of the one row with that id, or None when
      no row or several rows have it. */
  function SeriesLookup(rows: seq<SeriesRow>, id: int): Option<Series>
  {
    var found := SeriesWithId(rows, id);
    if |found| == 1 then Some(CreateSeriesFromRow(found[0])) else None
  }

  /** With unique ids, `get_series` finds a series exactly when a row has its id. */
  lemma SeriesLookupUnique(rows: seq<SeriesRow>, id: int)
    requires UniqueSeriesIds(rows)
    ensures SeriesLookup(rows, id).Some? <==> exists k :: 0 <= k < |rows| && rows[k].id == id
    ensures forall k :: 0 <= k < |rows| && rows[k].id == id ==> SeriesLookup(rows, id) == Some(CreateSeriesFromRow(rows[k]))
  {
    if k :| 0 <= k < |rows| && rows[k].id == id {
      SeriesWithIdUnique(rows, k);
      forall k' | 0 <= k' < |rows| && rows[k'].id == id ensures SeriesLookup(rows, id) == Some(CreateSeriesFromRow(rows[k'])) {
        assert k' == k;
      }
    } else {
      FilterEmpty(rows, HasId(id));
    }
  }

  /** The series of some rows, in row order. */
  function SeriesFromRows(rows: seq<SeriesRow>): (r: seq<Series>)
    ensures |r| == |rows|
    ensures forall k :: 0 <= k < |rows| ==> r[k] == CreateSeriesFromRow(rows[k])
    decreases |rows|
  {
    if rows == [] then [] else SeriesFromRows(rows[..|rows| - 1]) + [CreateSeriesFromRow(rows[|rows| - 1])]
  }

  // ---------------------------------------------------------------- ordering

  /** sqlite3's text ordering (`order by title`): character by character,
      a proper prefix first. */
  predicate TitleLe(a: string, b: string)
    decreases |a|
  {
    a == [] || (b != [] && (a[0] < b[0] || (a[0] == b[0] && TitleLe(a[1..], b[1..]))))
  }

  lemma {:induction false} TitleLeTotal(a: string, b: string)
    ensures TitleLe(a, b) || TitleLe(b, a)
    decreases |a|
  {
    if a != [] && b != [] && a[0] == b[0] {
      TitleLeTotal(a[1..], b[1..]);
    }
  }

  predicate SortedByTitle(titles: seq<string>)
  {
    forall k :: 0 < k < |titles| ==> TitleLe(titles[k - 1], titles[k])
  }

  function Titles(rows: seq<SeriesRow>): (r: seq<string>)
    ensures |r| == |rows| && forall k :: 0 <= k < |rows| ==> r[k] == rows[k].title
  {
    seq(|rows|, k requires 0 <= k < |rows| => rows[k].title)
  }

  function InsertByTitle(x: SeriesRow, rows: seq<SeriesRow>): (r: seq<SeriesRow>)
    ensures multiset(r) == multiset(rows) + multiset{x}
    ensures |r| == |rows| + 1
    ensures r[0] == x || (rows != [] && r[0] == rows[0])
    decreases |rows|
  {
    if rows == [] then [x]
    else if TitleLe(x.title, rows[0].title) then [x] + rows
    else
      assert rows == [rows[0]] + rows[1..];
      [rows[0]] + InsertByTitle(x, rows[1..])
  }

  lemma {:induction false} InsertByTitleSorted(x: SeriesRow, rows: seq<SeriesRow>)
    requires SortedByTitle(Titles(rows))
    ensures SortedByTitle(Titles(InsertByTitle(x, rows)))
    decreases |rows|
  {
    if rows != [] && !TitleLe(x.title, rows[0].title) {
      var tail := rows[1..];
      assert SortedByTitle(Titles(tail)) by {
        forall k | 0 < k < |tail| ensures TitleLe(tail[k - 1].title, tail[k].title) {
          assert tail[k - 1] == rows[k] && tail[k] == rows[k + 1];
        }
      }
      InsertByTitleSorted(x, tail);
      TitleLeTotal(x.title, rows[0].title);
      var r := InsertByTitle(x, rows);
      var t := InsertByTitle(x, tail);
      assert r == [rows[0]] + t;
      forall k | 0 < k < |r| ensures TitleLe(r[k - 1].title, r[k].title) {
        if k > 1 {
          assert r[k - 1] == t[k - 2] && r[k] == t[k - 1];
        } else if t[0] != x {
          assert t[0] == rows[1];
        }
      }
    }
  }

  /** The rows in title order: a permutation of them, sorted by title. */
  function SortByTitle(rows: seq<SeriesRow>): (r: seq<SeriesRow>)
    ensures multiset(r) == multiset(rows)
    ensures SortedByTitle(Titles(r))
    decreases |rows|
  {
    if rows == [] then []
    else
      assert rows == [rows[0]] + rows[1..];
      var rest := SortByTitle(rows[1..]);
      InsertByTitleSorted(rows[0], rest);
      InsertByTitle(rows[0], rest)
  }

  /** `where watch=1` on the series table. */
  function WatchedRows(rows: seq<SeriesRow>): (r: seq<SeriesRow>)
    ensures forall k :: 0 <= k < |r| ==> r[k] in rows && r[k].watch == 1
    ensures forall k :: 0 <= k < |rows| && rows[k].watch == 1 ==> rows[k] in r
  {
    Filter(rows, (x: SeriesRow) => x.watch == 1)
  }

  /** `get_watched_series`: the watched rows in title order, as series. */
  function WatchedSeries(rows: seq<SeriesRow>): seq<Series>
  {
    SeriesFromRows(SortByTitle(WatchedRows(rows)))
  }

  /** The watched rows in title order are a permutation of the watched rows. */
  lemma WatchedOrder(rows: seq<SeriesRow>)
    ensures var sorted := SortByTitle(WatchedRows(rows));
      && |sorted| == |WatchedRows(rows)|
      && (forall k :: 0 <= k < |sorted| ==> sorted[k] in rows && sorted[k].watch == 1)
      && (forall k :: 0 <= k < |rows| && rows[k].watch == 1 ==> rows[k] in sorted)
  {
    var watched := WatchedRows(rows);
    var sorted := SortByTitle(watched);
    assert |sorted| == |multiset(sorted)| == |multiset(watched)| == |watched|;
    forall k | 0 <= k < |sorted| ensures sorted[k] in rows && sorted[k].watch == 1 {
      assert sorted[k] in multiset(watched);
    }
    forall k | 0 <= k < |rows| && rows[k].watch == 1 ensures rows[k] in sorted {
      assert rows[k] in multiset(sorted);
    }
  }

  /** `get_watched_series` returns every watched series, in title order. */
  lemma WatchedSeriesExactly(rows: seq<SeriesRow>)
    ensures var r := WatchedSeries(rows);
      && |r| == |WatchedRows(rows)|
      && (forall k :: 0 <= k < |r| ==> r[k].watch)
      && (forall k :: 0 < k < |r| ==> TitleLe(r[k - 1].title, r[k].title))
      && (forall k :: 0 <= k < |rows| && rows[k].watch == 1 ==> CreateSeriesFromRow(rows[k]) in r)
  {
    var sorted := SortByTitle(WatchedRows(rows));
    var r := SeriesFromRows(sorted);
    WatchedOrder(rows);
    forall k | 0 <= k < |rows| && rows[k].watch == 1 ensures CreateSeriesFromRow(rows[k]) in r {
      var j :| 0 <= j < |sorted| && sorted[j] == rows[k];
      assert r[j] == CreateSeriesFromRow(rows[k]);
    }
    forall k | 0 < k < |r| ensures TitleLe(r[k - 1].title, r[k].title) {
      assert Titles(sorted)[k - 1] == r[k - 1].title && Titles(sorted)[k] == r[k].title;
    }
  }

  /** Every series `get_watched_series` returns is read from a watched row. */
  lemma WatchedSeriesSound(rows: seq<SeriesRow>)
    ensures var r := WatchedSeries(rows);
      forall k :: 0 <= k < |r| ==> exists row :: row in rows && row.watch == 1 && r[k] == CreateSeriesFromRow(row)
  {
    var sorted := SortByTitle(WatchedRows(rows));
    var r := SeriesFromRows(sorted);
    WatchedOrder(rows);
    forall k | 0 <= k < |r| ensures exists row :: row in rows && row.watch == 1 && r[k] == CreateSeriesFromRow(row) {
      var row := sorted[k];
      assert row in rows && row.watch == 1 && r[k] == CreateSeriesFromRow(row);
    }
  }

  // ---------------------------------------------------------------- episode queries

  /** The `where` conditions the episode getters add to `s.id=?`. */
  datatype Selector = AllOf | InSeason(season: int) | Numbered(season: int, episode: int) | AiredOn(date: string)

  predicate Selects(sel: Selector, r: EpisodeRow)
  {
    match sel
    case AllOf => true
    case InSeason(season) => r.seasonNumber == season
    case Numbered(season, episode) => r.seasonNumber == season && r.episodeNumber == episode
    case AiredOn(date) => r.originalAirDate == date
  }

  /** The condition `e.series_id = s.id and s.id=?` plus the selector's. */
  function OfSeries(seriesId: int, sel: Selector): EpisodeRow -> bool
  {
    (x: EpisodeRow) => x.seriesId == seriesId && Selects(sel, x)
  }

  /** The episode rows of a series that a selector keeps. */
  function EpisodesOf(rows: seq<EpisodeRow>, seriesId: int, sel: Selector): (r: seq<EpisodeRow>)
    ensures forall k :: 0 <= k < |r| ==> r[k] in rows && r[k].seriesId == seriesId && Selects(sel, r[k])
    ensures forall k :: 0 <= k < |rows| && rows[k].seriesId == seriesId && Selects(sel, rows[k]) ==> rows[k] in r
  {
    Filter(rows, OfSeries(seriesId, sel))
  }

  /** `episodes e join series s on e.series_id = s.id`, one pair per matching
      series row for each episode row, episodes in table order. */
  function Pairs(ss: seq<SeriesRow>, es: seq<EpisodeRow>): (r: seq<(SeriesRow, EpisodeRow)>)
    ensures forall k :: 0 <= k < |r| ==> r[k].0 in ss && r[k].1 in es
    ensures ss == [] ==> r == []
    ensures |ss| >= 1 ==> |r| >= |es|
    ensures |ss| == 1 ==> |r| == |es| && forall k :: 0 <= k < |es| ==> r[k] == (ss[0], es[k])
    decreases |es|
  {
    if es == [] then []
    else
      var init := Pairs(ss, es[..|es| - 1]);
      var last := seq(|ss|, k requires 0 <= k < |ss| => (ss[k], es[|es| - 1]));
      assert forall k :: 0 <= k < |es| - 1 ==> es[..|es| - 1][k] == es[k];
      init + last
  }

  /** The joined rows an episode query returns. */
  function Joined(series: seq<SeriesRow>, episodes: seq<EpisodeRow>, seriesId: int, sel: Selector)
    : seq<(SeriesRow, EpisodeRow)>
  {
    Pairs(SeriesWithId(series, seriesId), EpisodesOf(episodes, seriesId, sel))
  }

  function ReadPair(p: (SeriesRow, EpisodeRow)): Result<Episode>
  {
    CreateEpisodeFromRow(p.0, p.1)
  }

  /** Reading every fetched row in order; the first row that raises decides
      the error. */
  function ReadAll<A, B>(rows: seq<A>, read: A -> Result<B>): (r: Result<seq<B>>)
    ensures r.Ok? <==> forall k :: 0 <= k < |rows| ==> read(rows[k]).Ok?
    ensures r.Ok? ==> |r.value| == |rows| && forall k :: 0 <= k < |rows| ==> read(rows[k]) == Ok(r.value[k])
    decreases |rows|
  {
    if rows == [] then Ok([])
    else
      var init := ReadAll(rows[..|rows| - 1], read);
      assert forall k :: 0 <= k < |rows| - 1 ==> rows[..|rows| - 1][k] == rows[k];
      if init.Err? then init
      else
        var last := read(rows[|rows| - 1]);
        if last.Err? then Err(last.error) else Ok(init.value + [last.value])
  }

  /** The "exactly one row, else None" rule of get_episode and
      get_episode_by_date. */
  function ReadOne(pairs: seq<(SeriesRow, EpisodeRow)>): (r: Result<Option<Episode>>)
    ensures |pairs| != 1 ==> r == Ok(None)
    ensures r.Ok? && r.value.Some? ==> |pairs| == 1 && ReadPair(pairs[0]) == Ok(r.value.value)
  {
    if |pairs| == 1 then
      var e := ReadPair(pairs[0]);
      if e.Err? then Err(e.error) else Ok(Some(e.value))
    else Ok(None)
  }

  function EpisodeLookup(series: seq<SeriesRow>, episodes: seq<EpisodeRow>, seriesId: int, sel: Selector)
    : Result<Option<Episode>>
  {
    ReadOne(Joined(series, episodes, seriesId, sel))
  }

  /** `get_episode_by_date` on the tables: building the date raises for an
      impossible day and formatting it raises before 1900; otherwise the
      query compares the stored air-date text with the day's `'%Y-%m-%d'`
      text. */
  function EpisodeByDate(series: seq<SeriesRow>, episodes: seq<EpisodeRow>, seriesId: int, year: int, month: int, day: int)
    : (r: Result<Option<Episode>>)
    ensures !ValidDate(year, month, day) || year < 1900 ==> r.Err?
    ensures ValidDate(year, month, day) && year >= 1900 ==>
      r == EpisodeLookup(series, episodes, seriesId, AiredOn(Ymd(DateTime(year, month, day, 0, 0, 0))))
  {
    var theDate := MakeDate(year, month, day);
    if theDate.None? then Err("day is out of range for month")
    else
      var text := StrftimeYmd(theDate.value);
      if text.None? then Err("year is before 1900")
      else EpisodeLookup(series, episodes, seriesId, AiredOn(text.value))
  }

  /** Episodes of a series with no series row are never returned. */
  lemma UnknownSeriesHasNoEpisodes(series: seq<SeriesRow>, episodes: seq<EpisodeRow>, seriesId: int, sel: Selector)
    requires forall k :: 0 <= k < |series| ==> series[k].id != seriesId
    ensures Joined(series, episodes, seriesId, sel) == []
  {
    FilterEmpty(series, HasId(seriesId));
  }

  /** Two stored rows both matching an episode query make it read as absent. */
  lemma DuplicateEpisodeReadsAbsent(series: seq<SeriesRow>, episodes: seq<EpisodeRow>, seriesId: int, sel: Selector,
                                    i: int, j: int)
    requires 0 <= i < j < |episodes|
    requires episodes[i].seriesId == seriesId && Selects(sel, episodes[i])
    requires episodes[j].seriesId == seriesId && Selects(sel, episodes[j])
    ensures EpisodeLookup(series, episodes, seriesId, sel) == Ok(None)
  {
    FilterTwo(episodes, OfSeries(seriesId, sel), i, j);
  }

  /** With no stored row of the series under the query, it reads as absent. */
  lemma UnansweredReadsAbsent(series: seq<SeriesRow>, episodes: seq<EpisodeRow>, seriesId: int, sel: Selector)
    requires forall k :: 0 <= k < |episodes| && episodes[k].seriesId == seriesId ==> !Selects(sel, episodes[k])
    ensures EpisodeLookup(series, episodes, seriesId, sel) == Ok(None)
  {
    FilterEmpty(episodes, OfSeries(seriesId, sel));
  }

  /** When every stored air date is readable, no episode query raises, and it
      returns one episode per joined row, each with the selected numbers. */
  lemma ReadableJoin(series: seq<SeriesRow>, episodes: seq<EpisodeRow>, seriesId: int, sel: Selector)
    requires forall k :: 0 <= k < |episodes| ==> AirDateReadable(episodes[k].originalAirDate)
    ensures var r := ReadAll(Joined(series, episodes, seriesId, sel), ReadPair);
      r.Ok? && |r.value| == |Joined(series, episodes, seriesId, sel)|
    ensures EpisodeLookup(series, episodes, seriesId, sel).Ok?
  {
    var pairs := Joined(series, episodes, seriesId, sel);
    forall k | 0 <= k < |pairs| ensures ReadPair(pairs[k]).Ok? {
      assert pairs[k].1 in EpisodesOf(episodes, seriesId, sel);
      assert pairs[k].1 in episodes;
    }
  }

  // ---------------------------------------------------------------- movie queries

  function HasImdbId(imdbId: int): MovieRow -> bool
  {
    (x: MovieRow) => x.imdbId == imdbId
  }

  /** `get_movie(id)`: the movie of the one row with that IMDb id, None when
      no row or several rows have it; reading that row may raise. */
  function MovieLookup(rows: seq<MovieRow>, imdbId: int): (r: Result<Option<Movie>>)
    ensures r.Ok? && r.value.Some? ==> r.value.value.id == imdbId
  {
    var found := Filter(rows, HasImdbId(imdbId));
    if |found| == 1 then
      var m := CreateMovieFromRow(found[0]);
      if m.Err? then Err(m.error) else Ok(Some(m.value))
    else Ok(None)
  }

  // ---------------------------------------------------------------- row ids

  function MaxId(ids: seq<int>): (r: int)
    ensures r >= 0 && forall k :: 0 <= k < |ids| ==> ids[k] <= r
    decreases |ids|
  {
    if ids == [] then 0
    else
      var m := MaxId(ids[..|ids| - 1]);
      assert forall k :: 0 <= k < |ids| - 1 ==> ids[..|ids| - 1][k] == ids[k];
      if ids[|ids| - 1] > m then ids[|ids| - 1] else m
  }

  /** The row id sqlite3 gives the next inserted row of a table: one more
      than the largest in use. */
  function NextRowId<R>(rows: seq<R>, id: R -> int): (r: int)
    ensures r >= 1 && forall k :: 0 <= k < |rows| ==> id(rows[k]) < r
  {
    var ids := seq(|rows|, k requires 0 <= k < |rows| => id(rows[k]));
    assert forall k :: 0 <= k < |rows| ==> ids[k] == id(rows[k]);
    MaxId(ids) + 1
  }

  function NextEpisodeId(rows: seq<EpisodeRow>): int
  {
    NextRowId(rows, (row: EpisodeRow) => row.id)
  }

  function NextMovieId(rows: seq<MovieRow>): int
  {
    NextRowId(rows, (row: MovieRow) => row.id)
  }

  // ---------------------------------------------------------------- series table changes

  /** The series table after `add_series(s)`: a row is inserted only when
      `get_series(s.id)` finds none. */
  function AddedSeries(rows: seq<SeriesRow>, s: Series): seq<SeriesRow>
  {
    if SeriesLookup(rows, s.id).None? then rows + [SeriesToRow(s)] else rows
  }

  /** With unique ids, `add_series` keeps them unique, makes the series
      readable under its id, leaves an existing one as it was and every other
      id's lookup alone, and doing it twice is doing it once. */
  lemma AddSeriesEffect(rows: seq<SeriesRow>, s: Series, other: int)
    requires UniqueSeriesIds(rows)
    ensures UniqueSeriesIds(AddedSeries(rows, s))
    ensures SeriesLookup(rows, s.id).Some? ==> AddedSeries(rows, s) == rows
    ensures SeriesLookup(rows, s.id).None? ==>
      SeriesLookup(AddedSeries(rows, s), s.id) == Some(CreateSeriesFromRow(SeriesToRow(s)))
    ensures other != s.id ==> SeriesLookup(AddedSeries(rows, s), other) == SeriesLookup(rows, other)
    ensures AddedSeries(AddedSeries(rows, s), s) == AddedSeries(rows, s)
  {
    if SeriesLookup(rows, s.id).None? {
      AddNewSeries(rows, s, other);
    } else {
      assert AddedSeries(rows, s) == rows;
    }
  }

  /** Appending the row of a series whose id is absent. */
  lemma AddNewSeries(rows: seq<SeriesRow>, s: Series, other: int)
    requires UniqueSeriesIds(rows) && SeriesLookup(rows, s.id).None?
    ensures var after := rows + [SeriesToRow(s)];
      && UniqueSeriesIds(after)
      && SeriesLookup(after, s.id) == Some(CreateSeriesFromRow(SeriesToRow(s)))
      && (other != s.id ==> SeriesLookup(after, other) == SeriesLookup(rows, other))
  {
    var row := SeriesToRow(s);
    NoRowHasId(rows, s.id);
    AppendFreshId(rows, row);
    LastRowFound(rows, row);
    if other != s.id {
      OtherIdUnchanged(rows, row, other);
    }
  }

  lemma NoRowHasId(rows: seq<SeriesRow>, id: int)
    requires UniqueSeriesIds(rows) && SeriesLookup(rows, id).None?
    ensures forall k :: 0 <= k < |rows| ==> rows[k].id != id
  {
    SeriesLookupUnique(rows, id);
  }

  lemma LastRowFound(rows: seq<SeriesRow>, row: SeriesRow)
    requires UniqueSeriesIds(rows + [row])
    ensures SeriesLookup(rows + [row], row.id) == Some(CreateSeriesFromRow(row))
  {
    SeriesWithIdUnique(rows + [row], |rows|);
    assert (rows + [row])[|rows|] == row;
  }

  lemma OtherIdUnchanged(rows: seq<SeriesRow>, row: SeriesRow, other: int)
    requires row.id != other
    ensures SeriesLookup(rows + [row], other) == SeriesLookup(rows, other)
  {
    FilterAppend(rows, row, HasId(other));
    assert SeriesWithId(rows + [row], other) == SeriesWithId(rows, other);
  }

  lemma AppendFreshId(rows: seq<SeriesRow>, row: SeriesRow)
    requires UniqueSeriesIds(rows) && forall k :: 0 <= k < |rows| ==> rows[k].id != row.id
    ensures UniqueSeriesIds(rows + [row])
  {
    var after := rows + [row];
    forall i, j | 0 <= i < j < |after|
      ensures after[i].id != after[j].id
    {
      assert after[i] == rows[i];
      if j < |rows| {
        assert after[j] == rows[j];
      }
    }
  }

  /** Every row of the series with that id, with its stored flag replaced. */
  function SetWatch(rows: seq<SeriesRow>, id: int, flag: int): (r: seq<SeriesRow>)
    ensures |r| == |rows|
    ensures forall k :: 0 <= k < |rows| ==> r[k] == if rows[k].id == id then rows[k].(watch := flag) else rows[k]
  {
    seq(|rows|, k requires 0 <= k < |rows| => if rows[k].id == id then rows[k].(watch := flag) else rows[k])
  }

  /** The series table after `watch_series(s, watch)` for a series with id
      `id`: the update runs only when `get_series` finds it. */
  function WatchedTable(rows: seq<SeriesRow>, id: int, watch: bool): seq<SeriesRow>
  {
    if SeriesLookup(rows, id).Some? then SetWatch(rows, id, WatchFlag(watch)) else rows
  }

  /** `watch_series` changes only the stored flag, only of rows with that id,
      and keeps the ids unique. */
  lemma WatchSeriesFrame(rows: seq<SeriesRow>, id: int, watch: bool)
    requires UniqueSeriesIds(rows)
    ensures var after := WatchedTable(rows, id, watch);
      && UniqueSeriesIds(after)
      && |after| == |rows|
      && (forall k :: 0 <= k < |rows| ==> after[k] == rows[k].(watch := after[k].watch))
      && (forall k :: 0 <= k < |rows| && rows[k].id != id ==> after[k] == rows[k])
  {
    var after := WatchedTable(rows, id, watch);
    assert forall k :: 0 <= k < |rows| ==> after[k].id == rows[k].id;
  }

  /** After `watch_series` the series reads back with the new flag; an
      unknown id changes nothing. */
  lemma WatchSeriesLookup(rows: seq<SeriesRow>, id: int, watch: bool)
    requires UniqueSeriesIds(rows)
    ensures SeriesLookup(WatchedTable(rows, id, watch), id)
         == if SeriesLookup(rows, id).Some? then Some(SeriesLookup(rows, id).value.(watch := watch)) else None
  {
    SeriesLookupUnique(rows, id);
    if SeriesLookup(rows, id).Some? {
      var after := SetWatch(rows, id, WatchFlag(watch));
      var k :| 0 <= k < |rows| && rows[k].id == id;
      WatchSeriesFrame(rows, id, watch);
      SeriesWithIdUnique(after, k);
      assert after[k] == rows[k].(watch := WatchFlag(watch));
    }
  }

  /** `watch_series` on one id leaves every other id's lookup as it was. */
  lemma WatchSeriesOther(rows: seq<SeriesRow>, id: int, watch: bool, other: int)
    requires UniqueSeriesIds(rows) && other != id
    ensures SeriesLookup(WatchedTable(rows, id, watch), other) == SeriesLookup(rows, other)
  {
    var after := WatchedTable(rows, id, watch);
    WatchSeriesFrame(rows, id, watch);
    SeriesLookupUnique(rows, other);
    if k :| 0 <= k < |rows| && rows[k].id == other {
      SeriesWithIdUnique(rows, k);
      SeriesWithIdUnique(after, k);
    } else {
      FilterEmpty(rows, HasId(other));
      FilterEmpty(after, HasId(other));
    }
  }

  function LacksId(id: int): SeriesRow -> bool
  {
    (x: SeriesRow) => x.id != id
  }

  /** The series table after `clear_series(id)`. */
  function WithoutSeries(rows: seq<SeriesRow>, id: int): (r: seq<SeriesRow>)
    ensures forall k :: 0 <= k < |r| ==> r[k] in rows && r[k].id != id
    ensures forall k :: 0 <= k < |rows| && rows[k].id != id ==> rows[k] in r
  {
    Filter(rows, LacksId(id))
  }

  /** After `clear_series(id)` that id reads as absent and every other id
      reads as before. */
  lemma ClearSeriesEffect(rows: seq<SeriesRow>, id: int, other: int)
    ensures SeriesLookup(WithoutSeries(rows, id), id) == None
    ensures other != id ==> SeriesLookup(WithoutSeries(rows, id), other) == SeriesLookup(rows, other)
  {
    var after := WithoutSeries(rows, id);
    FilterEmpty(after, HasId(id));
    if other != id {
      FilterFilter(rows, LacksId(id), HasId(other));
    }
  }

  // ---------------------------------------------------------------- episode table changes

  /** The episode table after `add_episode(e, s)` for a series with id
      `seriesId`: one row appended, no existence check; None where `strftime`
      raises, leaving the table as it was. */
  function AddedEpisodes(rows: seq<EpisodeRow>, e: Episode, seriesId: int): Option<seq<EpisodeRow>>
    requires ValidEpisode(e)
  {
    var row := EpisodeToRow(e, seriesId, NextEpisodeId(rows));
    if row.None? then None else Some(rows + [row.value])
  }

  /** Rows `add_episode` writes keep every stored air date readable. */
  lemma AddEpisodeReadable(rows: seq<EpisodeRow>, e: Episode, seriesId: int)
    requires ValidEpisode(e)
    requires forall k :: 0 <= k < |rows| ==> AirDateReadable(rows[k].originalAirDate)
    requires AddedEpisodes(rows, e, seriesId).Some?
    ensures var after := AddedEpisodes(rows, e, seriesId).value;
      forall k :: 0 <= k < |after| ==> AirDateReadable(after[k].originalAirDate)
  {
    StoredAirDateReadable(e.originalAirDate);
  }

  /** An episode stored for a known series, with no other row under the same
      query, reads back under that query as the episode stored. */
  lemma AddEpisodeThenLookup(series: seq<SeriesRow>, rows: seq<EpisodeRow>, e: Episode, i: int, sel: Selector)
    requires ValidEpisode(e) && EpisodeListsPipeFree(e)
    requires e.originalAirDate.Some? ==> e.originalAirDate.value.year >= 1900
    requires UniqueSeriesIds(series) && 0 <= i < |series|
    requires forall k :: 0 <= k < |rows| ==> !OfSeries(series[i].id, sel)(rows[k])
    requires Selects(sel, EpisodeToRow(e, series[i].id, NextEpisodeId(rows)).value)
    ensures AddedEpisodes(rows, e, series[i].id).Some?
    ensures EpisodeLookup(series, AddedEpisodes(rows, e, series[i].id).value, series[i].id, sel)
         == Ok(Some(StoredEpisode(e, series[i], NextEpisodeId(rows))))
  {
    var sid := series[i].id;
    var row := EpisodeToRow(e, sid, NextEpisodeId(rows)).value;
    EpisodeRoundTrip(e, series[i], NextEpisodeId(rows));
    FilterEmpty(rows, OfSeries(sid, sel));
    FilterAppend(rows, row, OfSeries(sid, sel));
    SeriesWithIdUnique(series, i);
  }

  /** An episode stored with its numbers reads back by them. */
  lemma AddEpisodeThenGet(series: seq<SeriesRow>, rows: seq<EpisodeRow>, e: Episode, i: int)
    requires ValidEpisode(e) && EpisodeListsPipeFree(e)
    requires e.originalAirDate.Some? ==> e.originalAirDate.value.year >= 1900
    requires UniqueSeriesIds(series) && 0 <= i < |series|
    requires forall k :: 0 <= k < |rows| && rows[k].seriesId == series[i].id ==>
      rows[k].seasonNumber != e.seasonNumber || rows[k].episodeNumber != e.episodeNumber
    ensures AddedEpisodes(rows, e, series[i].id).Some?
    ensures EpisodeLookup(series, AddedEpisodes(rows, e, series[i].id).value, series[i].id,
                          Numbered(e.seasonNumber, e.episodeNumber))
         == Ok(Some(StoredEpisode(e, series[i], NextEpisodeId(rows))))
  {
    AddEpisodeThenLookup(series, rows, e, i, Numbered(e.seasonNumber, e.episodeNumber));
  }

  /** An episode stored with an air date reads back by that day's
      `'%Y-%m-%d'` text. */
  lemma AddEpisodeThenGetByDate(series: seq<SeriesRow>, rows: seq<EpisodeRow>, e: Episode, i: int)
    requires ValidEpisode(e) && EpisodeListsPipeFree(e)
    requires e.originalAirDate.Some? && e.originalAirDate.value.year >= 1900
    requires UniqueSeriesIds(series) && 0 <= i < |series|
    requires forall k :: 0 <= k < |rows| && rows[k].seriesId == series[i].id ==>
      rows[k].originalAirDate != Ymd(e.originalAirDate.value)
    ensures AddedEpisodes(rows, e, series[i].id).Some?
    ensures EpisodeLookup(series, AddedEpisodes(rows, e, series[i].id).value, series[i].id,
                          AiredOn(Ymd(e.originalAirDate.value)))
         == Ok(Some(StoredEpisode(e, series[i], NextEpisodeId(rows))))
  {
    AddEpisodeThenLookup(series, rows, e, i, AiredOn(Ymd(e.originalAirDate.value)));
  }

  function NotOfSeries(seriesId: int): EpisodeRow -> bool
  {
    (x: EpisodeRow) => x.seriesId != seriesId
  }

  /** The episode table after `clear_all_episodes(seriesId)`. */
  function WithoutEpisodesOf(rows: seq<EpisodeRow>, seriesId: int): (r: seq<EpisodeRow>)
    ensures forall k :: 0 <= k < |r| ==> r[k] in rows && r[k].seriesId != seriesId
    ensures forall k :: 0 <= k < |rows| && rows[k].seriesId != seriesId ==> rows[k] in r
  {
    Filter(rows, NotOfSeries(seriesId))
  }

  /** After `clear_all_episodes(seriesId)` no query finds an episode of that
      series, and queries for other series find what they found before. */
  lemma ClearAllEpisodesEffect(series: seq<SeriesRow>, rows: seq<EpisodeRow>, seriesId: int, other: int, sel: Selector)
    ensures Joined(series, WithoutEpisodesOf(rows, seriesId), seriesId, sel) == []
    ensures other != seriesId ==>
      Joined(series, WithoutEpisodesOf(rows, seriesId), other, sel) == Joined(series, rows, other, sel)
  {
    FilterEmpty(WithoutEpisodesOf(rows, seriesId), OfSeries(seriesId, sel));
    if other != seriesId {
      FilterFilter(rows, NotOfSeries(seriesId), OfSeries(other, sel));
    }
  }

  // ---------------------------------------------------------------- movie table changes

  /** The movie table after `add_movie(m)`: a row is inserted only when
      `get_movie(m.id)` finds none; when that lookup raises, so does
      `add_movie`. */
  function AddedMovies(rows: seq<MovieRow>, m: Movie): Result<seq<MovieRow>>
    requires m.time.Some? ==> Valid(m.time.value)
  {
    var existing := MovieLookup(rows, m.id);
    if existing.Err? then Err(existing.error)
    else if existing.value.None? then Ok(rows + [MovieToRow(m, NextMovieId(rows))])
    else Ok(rows)
  }

  /** A new movie is stored and reads back under its IMDb id; adding it again
      then changes nothing. A movie without a time is stored too, but then
      cannot be read back, so adding it again raises. */
  lemma AddMovieEffect(rows: seq<MovieRow>, m: Movie)
    requires m.time.Some? ==> Valid(m.time.value)
    requires MovieListsPipeFree(m)
    requires forall k :: 0 <= k < |rows| ==> rows[k].imdbId != m.id
    ensures AddedMovies(rows, m) == Ok(rows + [MovieToRow(m, NextMovieId(rows))])
    ensures m.time.Some? ==> MovieLookup(AddedMovies(rows, m).value, m.id) == Ok(Some(StoredMovie(m, NextMovieId(rows))))
    ensures m.time.Some? ==> AddedMovies(AddedMovies(rows, m).value, m) == AddedMovies(rows, m)
    ensures m.time.None? ==> AddedMovies(AddedMovies(rows, m).value, m).Err?
  {
    var row := MovieToRow(m, NextMovieId(rows));
    FilterEmpty(rows, HasImdbId(m.id));
    FilterAppend(rows, row, HasImdbId(m.id));
    MovieRoundTrip(m, NextMovieId(rows));
  }

  function LacksImdbId(imdbId: int): MovieRow -> bool
  {
    (x: MovieRow) => x.imdbId != imdbId
  }

  /** The movie table after `clear_movie(imdbId)`. */
  function WithoutMovie(rows: seq<MovieRow>, imdbId: int): (r: seq<MovieRow>)
    ensures forall k :: 0 <= k < |r| ==> r[k] in rows && r[k].imdbId != imdbId
    ensures forall k :: 0 <= k < |rows| && rows[k].imdbId != imdbId ==> rows[k] in r
  {
    Filter(rows, LacksImdbId(imdbId))
  }

  /** After `clear_movie(imdbId)` that id reads as absent and every other id
      reads as before. */
  lemma ClearMovieEffect(rows: seq<MovieRow>, imdbId: int, other: int)
    ensures MovieLookup(WithoutMovie(rows, imdbId), imdbId) == Ok(None)
    ensures other != imdbId ==> MovieLookup(WithoutMovie(rows, imdbId), other) == MovieLookup(rows, other)
  {
    FilterEmpty(WithoutMovie(rows, imdbId), HasImdbId(imdbId));
    if other != imdbId {
      FilterFilter(rows, LacksImdbId(imdbId), HasImdbId(other));
    }
  }

  /** Deleting rows keeps the series ids unique. */
  lemma {:induction false} FilterUniqueSeriesIds(rows: seq<SeriesRow>, p: SeriesRow -> bool)
    requires UniqueSeriesIds(rows)
    ensures UniqueSeriesIds(Filter(rows, p))
    decreases |rows|
  {
    if |rows| > 0 {
      var init, x := rows[..|rows| - 1], rows[|rows| - 1];
      assert UniqueSeriesIds(init);
      FilterUniqueSeriesIds(init, p);
      var f := Filter(init, p);
      forall k | 0 <= k < |f| ensures f[k].id != x.id {
        var j :| 0 <= j < |init| && init[j] == f[k];
      }
    }
  }

  // ---------------------------------------------------------------- fetch loops

  /** The `for r in results` loop of the getters: each fetched row is read in
      order, and a row that raises ends the getter with that error. */
  method ReadRows<A, B>(rows: seq<A>, read: A -> Result<B>) returns (r: Result<seq<B>>)
    ensures r == ReadAll(rows, read)
  {
    r := Ok([]);
    for i := 0 to |rows|
      invariant r == ReadAll(rows[..i], read)
    {
      assert rows[..i + 1][..i] == rows[..i];
      if r.Ok? {
        var x := read(rows[i]);
        if x.Err? {
          r := Err(x.error);
        } else {
          r := Ok(r.value + [x.value]);
        }
      }
    }
    assert rows[..|rows|] == rows;
  }

  /** The same loop for series rows, whose reading cannot raise. */
  method ReadSeries(rows: seq<SeriesRow>) returns (r: seq<Series>)
    ensures r == SeriesFromRows(rows)
  {
    r := [];
    for i := 0 to |rows|
      invariant r == SeriesFromRows(rows[..i])
    {
      assert rows[..i + 1][..i] == rows[..i];
      r := r + [CreateSeriesFromRow(rows[i])];
    }
    assert rows[..|rows|] == rows;
  }

  // ---------------------------------------------------------------- the cache

  /** The local cache: the three tables of its sqlite3 file. */
  class Database {
    var series: seq<SeriesRow>
    var episodes: seq<EpisodeRow>
    var movies: seq<MovieRow>

    /** What the tables keep while only this class writes them: series ids
        are unique and every stored air date can be read back. */
    predicate Valid()
      reads this
    {
      UniqueSeriesIds(series)
      && forall k :: 0 <= k < |episodes| ==> AirDateReadable(episodes[k].originalAirDate)
    }

    /** Opening the cache file: its tables as they are. */
    constructor(series: seq<SeriesRow>, episodes: seq<EpisodeRow>, movies: seq<MovieRow>)
      ensures this.series == series && this.episodes == episodes && this.movies == movies
    {
      this.series := series;
      this.episodes := episodes;
      this.movies := movies;
    }

    method GetSeries(id: int) returns (r: Option<Series>)
      ensures r == SeriesLookup(series, id)
      ensures r.Some? ==> r.value.id == id
    {
      var found := SeriesWithId(series, id);
      if |found| == 1 {
        r := Some(CreateSeriesFromRow(found[0]));
      } else {
        r := None;
      }
    }

    method GetAllSeries() returns (r: seq<Series>)
      ensures r == SeriesFromRows(series)
    {
      r := ReadSeries(series);
    }

    method AddSeries(s: Series)
      modifies this
      ensures series == AddedSeries(old(series), s)
      ensures episodes == old(episodes) && movies == old(movies)
      ensures old(Valid()) ==> Valid()
    {
      if old(Valid()) {
        AddSeriesEffect(series, s, s.id);
      }
      var existing := GetSeries(s.id);
      if existing.None? {
        series := series + [SeriesToRow(s)];
      }
    }

    method WatchSeries(s: Series, watch: bool)
      modifies this
      ensures series == WatchedTable(old(series), s.id, watch)
      ensures episodes == old(episodes) && movies == old(movies)
      ensures old(Valid()) ==> Valid()
    {
      if Valid() {
        WatchSeriesFrame(series, s.id, watch);
      }
      var existing := GetSeries(s.id);
      if existing.Some? {
        series := SetWatch(series, s.id, WatchFlag(watch));
      }
    }

    method GetWatchedSeries() returns (r: seq<Series>)
      ensures r == WatchedSeries(series)
    {
      var sorted := SortByTitle(WatchedRows(series));
      r := ReadSeries(sorted);
    }

    method ClearSeries(id: int)
      modifies this
      ensures series == WithoutSeries(old(series), id)
      ensures episodes == old(episodes) && movies == old(movies)
      ensures old(Valid()) ==> Valid()
    {
      if Valid() {
        FilterUniqueSeriesIds(series, LacksId(id));
      }
      series := WithoutSeries(series, id);
    }

    /** `add_episode(e, s)`; false where it raises, with nothing stored. */
    method AddEpisode(e: Episode, s: Series) returns (ok: bool)
      requires ValidEpisode(e)
      modifies this
      ensures ok == AddedEpisodes(old(episodes), e, s.id).Some?
      ensures episodes == if ok then AddedEpisodes(old(episodes), e, s.id).value else old(episodes)
      ensures series == old(series) && movies == old(movies)
      ensures old(Valid()) ==> Valid()
    {
      var row := EpisodeToRow(e, s.id, NextEpisodeId(episodes));
      if row.None? {
        ok := false;
      } else {
        if Valid() {
          AddEpisodeReadable(episodes, e, s.id);
        }
        episodes := episodes + [row.value];
        ok := true;
      }
    }

    method ClearAllEpisodes(seriesId: int)
      modifies this
      ensures episodes == WithoutEpisodesOf(old(episodes), seriesId)
      ensures series == old(series) && movies == old(movies)
      ensures old(Valid()) ==> Valid()
    {
      var before := episodes;
      episodes := WithoutEpisodesOf(episodes, seriesId);
      forall k | 0 <= k < |episodes| ensures episodes[k] in before {
      }
    }

    method GetAllEpisodes(seriesId: int) returns (r: Result<seq<Episode>>)
      ensures r == ReadAll(Joined(series, episodes, seriesId, AllOf), ReadPair)
      ensures Valid() ==> r.Ok?
    {
      if Valid() {
        ReadableJoin(series, episodes, seriesId, AllOf);
      }
      r := ReadRows(Joined(series, episodes, seriesId, AllOf), ReadPair);
    }

    method GetEpisodes(seriesId: int, seasonNumber: int) returns (r: Result<seq<Episode>>)
      ensures r == ReadAll(Joined(series, episodes, seriesId, InSeason(seasonNumber)), ReadPair)
      ensures Valid() ==> r.Ok?
    {
      if Valid() {
        ReadableJoin(series, episodes, seriesId, InSeason(seasonNumber));
      }
      r := ReadRows(Joined(series, episodes, seriesId, InSeason(seasonNumber)), ReadPair);
    }

    method GetEpisode(seriesId: int, seasonNumber: int, episodeNumber: int) returns (r: Result<Option<Episode>>)
      ensures r == EpisodeLookup(series, episodes, seriesId, Numbered(seasonNumber, episodeNumber))
      ensures Valid() ==> r.Ok?
      ensures r.Ok? && r.value.Some? ==>
        r.value.value.seasonNumber == seasonNumber && r.value.value.episodeNumber == episodeNumber
        && r.value.value.series.id == seriesId
    {
      var pairs := Joined(series, episodes, seriesId, Numbered(seasonNumber, episodeNumber));
      if Valid() {
        ReadableJoin(series, episodes, seriesId, Numbered(seasonNumber, episodeNumber));
      }
      r := ReadOne(pairs);
      if r.Ok? && r.value.Some? {
        assert pairs[0].0 in SeriesWithId(series, seriesId);
        assert pairs[0].1 in EpisodesOf(episodes, seriesId, Numbered(seasonNumber, episodeNumber));
      }
    }

    /** `get_episode_by_date`: building the date raises for an impossible day
        and formatting it raises before 1900; otherwise the query compares
        the stored air-date text with the day's `'%Y-%m-%d'` text. */
    method GetEpisodeByDate(seriesId: int, year: int, month: int, day: int) returns (r: Result<Option<Episode>>)
      ensures r == EpisodeByDate(series, episodes, seriesId, year, month, day)
      ensures Valid() && ValidDate(year, month, day) && year >= 1900 ==> r.Ok?
    {
      var theDate := MakeDate(year, month, day);
      if theDate.None? {
        return Err("day is out of range for month");
      }
      var text := StrftimeYmd(theDate.value);
      if text.None? {
        return Err("year is before 1900");
      }
      if Valid() {
        ReadableJoin(series, episodes, seriesId, AiredOn(text.value));
      }
      r := ReadOne(Joined(series, episodes, seriesId, AiredOn(text.value)));
    }

    method GetMovie(imdbId: int) returns (r: Result<Option<Movie>>)
      ensures r == MovieLookup(movies, imdbId)
    {
      var found := Filter(movies, HasImdbId(imdbId));
      if |found| == 1 {
        var m := CreateMovieFromRow(found[0]);
        r := if m.Err? then Err(m.error) else Ok(Some(m.value));
      } else {
        r := Ok(None);
      }
    }

    method GetAllMovies() returns (r: Result<seq<Movie>>)
      ensures r == ReadAll(movies, CreateMovieFromRow)
    {
      r := ReadRows(movies, CreateMovieFromRow);
    }

    /** `add_movie(m)`: Ok(true) when a row was inserted, Ok(false) when the
        movie was already there, Err when reading the existing row raised. */
    method AddMovie(m: Movie) returns (r: Result<bool>)
      requires m.time.Some? ==> DateTimes.Valid(m.time.value)
      modifies this
      ensures r.Err? <==> AddedMovies(old(movies), m).Err?
      ensures r.Ok? ==> movies == AddedMovies(old(movies), m).value && (r.value <==> MovieLookup(old(movies), m.id) == Ok(None))
      ensures r.Err? ==> movies == old(movies)
      ensures series == old(series) && episodes == old(episodes)
      ensures old(Valid()) ==> Valid()
    {
      var existing := GetMovie(m.id);
      if existing.Err? {
        return Err(existing.error);
      }
      if existing.value.None? {
        movies := movies + [MovieToRow(m, NextMovieId(movies))];
        r := Ok(true);
      } else {
        r := Ok(false);
      }
    }

    method ClearMovie(imdbId: int)
      modifies this
      ensures movies == WithoutMovie(old(movies), imdbId)
      ensures series == old(series) && episodes == old(episodes)
      ensures old(Valid()) ==> Valid()
    {
      movies := WithoutMovie(movies, imdbId);
    }
  }
}
