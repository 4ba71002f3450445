# meliman, modelled in Dafny

meliman is a media library manager for TV recordings. This project models its core.

How it identifies a file: it reads the series title from the file's
path, then the season and episode numbers, either from an `s01e02` tag or
from a `Season 1` folder, or else the air date.

How it finds the episode: it resolves the episode through a local SQLite
cache that stands in front of a remote television guide (thetvdb). A
cache hit is answered locally. On a miss the remote guide is asked and its
answer is stored.

What it does with a file:
- copies or moves it into a library tree named after the series and season;
- writes a pyTivo metadata sidecar beside it;
- links it from a recent-additions folder.

The file manager can also link a library entry from genre folders (`add_to_genres`); no modelled path calls it.

It does this under a lock file, and it removes expired recent additions
afterwards.

Two scripts are modelled with it:
- `syncdb`, which applies numbered SQL migrations to the cache database and records each applied version;
- `bulkRenameMovies`, which renames movie files from a `old; new` instruction file.

The model follows the Python 2.7 code, library calls included:
- Strings are `seq<char>`. `strip`, `lower` and `IGNORECASE` are ASCII-only.
- The regular expressions become recognisers over positions. `.` does not match a newline, `$` matches at the end or before a final newline, and a leading greedy `^.*` makes the last position that fits win.
- `os.path` is `posixpath`. `os.path.exists` follows a link, so a dangling link does not exist (`FileManager.Exists`); `os.makedirs` and `os.symlink` still raise on it.
- `datetime` rejects impossible days, and Python 2's `strftime` raises for years before 1900. Raising is modelled as `Err` or `None`.

The database is a class with the three tables (series, episodes, movies) as `seq` fields of row datatypes. Its methods are specified by functions on those tables:
- queries are filters in table order;
- the episode join is series-major per episode row;
- every read that can raise returns a `Result`.

The file system is a class with a set of existing paths and a map of symbolic links. The remote guide is a class whose answers are fixed functions and which counts requests.

Each Python module has its own Dafny module, with a few helper modules beside them:

| Dafny module | Python source |
|---|---|
| `Utility` | `utility.py` |
| `Metadata` | `metadata.py` |
| `Database` | `database.py` |
| `FilePatterns`, `TitlePattern`, `FileMatcher` | `file_matcher.py` |
| `FileManager` | `file_manager.py` |
| `Meliman` | `meliman.py` |
| `SyncDb` | `scripts/syncdb.py` |
| `BulkRenameMovies` | `scripts/bulkRenameMovies.py` |
| `Remote` | the parts of `thetvdb.py` the core calls |

The helper modules are `PyStr`, `PosixPath`, `DateTimes`, `Scan`, `Seqs` and `Wrappers`. They model the Python library functions the core relies on.

Two behaviours of the code worth noting:
- **Dashed dates.** The date pattern's separator class `[/-_.]` is the range `/`..`_` plus `.`, so `-` is not a separator. A name such as `Show.2011-03-05.avi` yields no date (`FilePatterns.DateScenarioDashes`).
- **`do_process` on success.** It returns `None`, which the model reports as exit status 0.

## Model

| member | source | states |
|---|---|---|
| Utility.RFind | utility.py:10 | the index of the last occurrence of the character, or -1 when there is none; no later index holds it |
| Utility.SplitFileName | utility.py:9-16 | when the last '.' is past index 0, base + '.' + extension is the name and the base ends at that dot; otherwise (name, ''); the extension never holds a '.' |
| Utility.StripExtension | utility.py:19-20 | the base part of the split: a prefix of the name, shorter exactly when a '.' past index 0 exists |
| Utility.SplitFileNameTrailingDot | utility.py:13-14 | a name ending in '.' past index 0 has an empty extension and loses only that dot |
| Utility.SplitFileNameOfJoin | utility.py:9-16 | a non-empty base and a non-empty dot-free extension joined by '.' split back into themselves |
| Metadata.NewEpisode | metadata.py:41-49 | a fresh Episode is a valid episode record (its defaults are stated by NewEpisodeRender) |
| Metadata.TvRatingTable | metadata.py:106-125 | the seven named TV ratings map to codes x1..x7 in table order, every other text to x0 |
| Metadata.AppendPeople | metadata.py:72-90 | the lines become the render of the entries with the person entries appended |
| Metadata.AppendIf | metadata.py:63-70 | the lines become the render of the entries with the key's line appended exactly when the condition holds |
| Metadata.PersonValues | metadata.py:72-90 | a person list contributes under its own key exactly the non-blank names, in order, and nothing under other keys |
| Metadata.FormatForPyTivo | metadata.py:51-136 | PyTivoLines: Err when a date to print is before 1900, otherwise the rendered entries for the formatted dates |
| Metadata.SidecarLines | metadata.py:51-136 | the lines are the render of the sidecar entries |
| Metadata.OptionalLines | metadata.py:63-70 | the lines become the render of the entries with the air-date, host and choreographer entries appended |
| Metadata.PeopleLines | metadata.py:72-90 | the lines become the render of the entries with the people entries appended |
| Metadata.SeriesLines | metadata.py:92-133 | the lines become the render of the entries with the series entries appended |
| Metadata.SidecarOpening | metadata.py:56-61 | the sidecar opens with the episode marker, the title, the recording time and a newline-free description line, and at least the series title follows |
| Metadata.OpeningValues | metadata.py:56-61 | under each key the opening holds exactly the values of the OpeningExpected table |
| Metadata.OptionalValues | metadata.py:63-70 | under each key the optional part holds exactly the values of the OptionalExpected table |
| Metadata.PeopleValues | metadata.py:72-90 | under each key the people part holds exactly the values of the PeopleExpected table |
| Metadata.SeriesFixedValues | metadata.py:92-125 | stars only when at least 1, the series title, the series id only when set, the TV rating code only when set, nothing else |
| Metadata.SeriesValues | metadata.py:92-133 | under each key the series part holds exactly the values of the SeriesExpected table |
| Metadata.PyTivoValues | metadata.py:51-136 | under every key the sidecar holds exactly the values of the independent Expected table, in order |
| Metadata.PyTivoDirectorsAndRating | metadata.py:72-125 | one vDirector line per non-blank director, in order, and a tvRating line exactly when the series has a rating |
| Metadata.NewEpisodeRender | metadata.py:5-20 | the sidecar of a fresh Episode with no stars is the fixed list of default lines |
| DateTimes.MakeDate | database.py:229 | `datetime(y, m, d)` is Some exactly for a valid calendar day, and it is that day at midnight |
| DateTimes.StrptimeYmd | database.py:387-391 | a parsed `%Y-%m-%d` text is a valid date and time |
| DateTimes.StrptimeTime | database.py:370-373 | a parsed `%Y-%m-%d %H:%M:%S` text is a valid instant |
| DateTimes.StrptimeStrftimeYmd | database.py:348-351 | the stored air-date text of a day from 1900 on parses back to that day at midnight |
| DateTimes.StrftimeYmdInjective | database.py:229-230 | two valid days with the same `%Y-%m-%d` text are the same day |
| DateTimes.StrptimeIsoFormat | database.py:370-373 | a stored instant's text parses back to the same instant |
| PyStr.Lower | file_matcher.py:86 | same length, each character mapped by ASCII lower-casing |
| PyStr.StripEmptyIff | metadata.py:73 | `s.strip() == ''` exactly when every character is whitespace |
| PyStr.StripNoSpace | scripts/bulkRenameMovies.py:72 | a string with no surrounding whitespace is its own strip |
| PyStr.StripKeepsOut | file_matcher.py:86 | a character absent from the string is absent from its strip |
| PyStr.Split | database.py:328 | a split always has at least one piece |
| PyStr.SplitPiecesLackSep | database.py:328-329 | no piece of a split holds the separator |
| PyStr.SplitNoSep | meliman.py:127 | a string without the separator splits into itself alone |
| PyStr.SplitCount | scripts/bulkRenameMovies.py:68-70 | a split has one piece more than the separator has occurrences |
| PyStr.SplitJoin | database.py:72 | joining '\|'-free pieces with '\|' and splitting again gives the pieces back |
| PyStr.ReplaceChar | file_matcher.py:84 | every occurrence of the character is replaced, every other character kept, the length unchanged |
| PyStr.NatToStringDigits | file_manager.py:18 | `%i` of a natural number is a non-empty string of decimal digits whose value is the number |
| PyStr.FormatNatPadded | file_manager.py:18 | `%0<w>i` of a natural number is a digit string of at least w characters, exactly w when it fits, whose value is the number |
| PyStr.ParseIntOfNat | file_matcher.py:120-121 | `int()` reads back what `%i` printed |
| PosixPath.RStripSlashes | file_matcher.py:108 | a prefix of the path, the rest all slashes, not itself ending in '/' |
| PosixPath.Split | file_matcher.py:108 | the tail has no '/' and is a suffix; the head is a prefix of the path |
| PosixPath.Join | meliman.py:385 | an absolute second part replaces the first; otherwise the first part is a prefix and the second a suffix of the result |
| PosixPath.SplitPlainName | file_matcher.py:108 | a name without '/' splits into an empty head and itself |
| PosixPath.SplitJoin | file_matcher.py:108 | a relative name joined to a directory not ending in '/' splits back into the directory and the name |
| Scan.RunEnd | file_matcher.py:7 | a greedy run from i: every character up to the end passes, and the character at the end, if any, fails |
| Scan.RunEndAt | file_matcher.py:7 | a run that is known to stop at j ends at j |
| Scan.LastWhere | file_matcher.py:7 | the largest position at most i that fits, or -1 when none does |
| Scan.LastWhereIs | file_matcher.py:7 | a position that fits with none after it is what the search finds |
| Seqs.Filter | database.py:102-117 | every kept element is one of the sequence's and passes, and every element that passes is kept |
| Seqs.CountTrue | meliman.py:66-71 | the count of true flags is at most the number of flags |
| Seqs.CountOne | meliman.py:66-71 | a count of one is exactly one position set and every other clear |
| Seqs.CountTruthy | meliman.py:66-71 | the `true_count` loop computes the number of true flags |
| Database.Loaded | database.py:328-329 | a list column always reads back as at least one piece |
| Database.ListRoundTrip | database.py:321-336 | a stored '\|'-free list reads back as itself, an empty list as [''] |
| Database.CreateSeriesFromRow | database.py:321-336 | the row's id and title, `db_id` left at 0, and watched exactly when the flag column is 1 |
| Database.SeriesRoundTrip | database.py:57-76 | a stored series reads back as itself, up to `db_id` and empty lists |
| Database.GetDatetimeFromString | database.py:387-391 | None for a missing or empty text; Err exactly when `strptime` rejects a non-empty text; otherwise the valid instant `strptime` reads |
| Database.AirDateText | database.py:146-149 | None, where `strftime` raises, exactly for an air date before 1900 |
| Database.EpisodeToRow | database.py:134-164 | None, where `strftime` raises, exactly when the air date is before 1900 |
| Database.CreateEpisodeFromRow | database.py:339-361 | Err exactly when the stored air date is unreadable; otherwise a valid episode with the row's id and numbers and the series row's series |
| Database.StoredAirDateReadable | database.py:146-149 | the air-date text `add_episode` writes is always readable |
| Database.EpisodeRoundTrip | database.py:134-164 | a stored episode reads back as itself with the series row's series, up to the recording time |
| Database.CreateMovieFromRow | database.py:363-383 | a NULL time raises; a movie read carries the row's id and IMDb id |
| Database.MovieRoundTrip | database.py:285-299 | a stored movie with a time reads back with that time; one stored without a time can never be read back |
| Database.SeriesWithId | database.py:24-39 | the query keeps exactly the rows with that id |
| Database.SeriesWithIdUnique | database.py:24-39 | with unique ids the series query finds exactly the one row with that id |
| Database.SeriesLookupUnique | database.py:24-39 | with unique ids `get_series` finds a series exactly when a row has its id, and it is that row's series |
| Database.SeriesFromRows | database.py:41-55 | one series per row, in row order |
| Database.InsertByTitleSorted | database.py:102-117 | inserting into a sequence sorted by title keeps it sorted |
| Database.SortByTitle | database.py:102-117 | the result is a permutation of the rows, sorted by title |
| Database.WatchedRows | database.py:102-117 | exactly the rows whose watch flag is 1 |
| Database.WatchedOrder | database.py:102-117 | the watched rows in title order are a permutation of the watched rows |
| Database.WatchedSeriesExactly | database.py:102-117 | `get_watched_series` returns every watched series, in title order |
| Database.WatchedSeriesSound | database.py:102-117 | every series `get_watched_series` returns is read from a watched row |
| Database.EpisodesOf | database.py:195-208 | exactly the episode rows of the series that the selector keeps |
| Database.Pairs | database.py:179-192 | every pair is a series row and an episode row of the tables; no series rows give no pairs; one series row gives one pair per episode row, in order |
| Database.ReadAll | database.py:179-192 | Ok exactly when no fetched row raises, and then one value per row, in order |
| Database.ReadOne | database.py:211-225 | a row count other than one gives None; a value comes only from reading the single row |
| Database.EpisodeByDate | database.py:228-245 | Err for an impossible day and for a year before 1900; otherwise the episodes whose stored air date is the day's text |
| Database.UnknownSeriesHasNoEpisodes | database.py:179-192 | episodes of a series without a series row are never returned |
| Database.DuplicateEpisodeReadsAbsent | database.py:211-225 | two stored rows both matching an episode query make it read as absent |
| Database.UnansweredReadsAbsent | database.py:211-225 | with no stored row of the series under the query it reads as absent |
| Database.ReadableJoin | database.py:179-208 | when every stored air date is readable no episode query raises, and reading the join gives one episode per joined row |
| Database.MovieLookup | database.py:250-265 | a movie found carries the requested IMDb id |
| Database.NextRowId | database.py:134-164 | the id sqlite3 gives the next episode or movie row is positive and above every id in use |
| Database.AddSeriesEffect | database.py:57-76 | `add_series` keeps ids unique, makes the series readable under its id, leaves an existing one and every other id alone, and is idempotent |
| Database.AddNewSeries | database.py:57-76 | inserting a series whose id is absent keeps ids unique, makes it readable under its id and leaves every other id reading as before |
| Database.SetWatch | database.py:79-100 | the same rows, with the flag replaced exactly on rows of that id |
| Database.WatchSeriesFrame | database.py:79-100 | `watch_series` changes only the stored flag, only of rows with that id, and keeps ids unique |
| Database.WatchSeriesLookup | database.py:79-100 | after `watch_series` the series reads back with the new flag; an unknown id changes nothing |
| Database.WatchSeriesOther | database.py:79-100 | `watch_series` on one id leaves every other id's lookup as it was |
| Database.WithoutSeries | database.py:120-128 | exactly the rows of other ids remain |
| Database.ClearSeriesEffect | database.py:120-128 | after `clear_series` that id reads as absent and every other id as before |
| Database.AddEpisodeReadable | database.py:134-164 | rows `add_episode` writes keep every stored air date readable |
| Database.AddEpisodeThenLookup | database.py:134-164 | an episode stored for a known series, with no other row under the same query, reads back under it as the stored episode |
| Database.AddEpisodeThenGet | database.py:211-225 | an episode stored with its numbers reads back by them |
| Database.AddEpisodeThenGetByDate | database.py:228-245 | an episode stored with an air date reads back by that day |
| Database.WithoutEpisodesOf | database.py:167-175 | exactly the episode rows of other series remain |
| Database.ClearAllEpisodesEffect | database.py:167-175 | afterwards no query finds an episode of that series, and queries for other series find what they found before |
| Database.AddMovieEffect | database.py:285-299 | a new movie is stored and reads back; adding it again changes nothing; one without a time is stored but cannot be read back, so adding it again raises |
| Database.WithoutMovie | database.py:302-310 | exactly the movie rows of other IMDb ids remain |
| Database.ClearMovieEffect | database.py:302-310 | after `clear_movie` that id reads as absent and every other id as before |
| Database.FilterUniqueSeriesIds | database.py:120-128 | deleting rows keeps the series ids unique |
| Database.ReadRows | database.py:179-192 | the row-reading loop returns what ReadAll specifies: the first error, or every row's value in order |
| Database.ReadSeries | database.py:41-55 | the series-row loop returns one series per row, in order |
| Database.Database.constructor | database.py:16-21 | the tables are those of the opened cache file |
| Database.Database.GetSeries | database.py:24-39 | the lookup of the id on the series table; a series found has that id |
| Database.Database.GetAllSeries | database.py:41-55 | one series per stored row, in table order |
| Database.Database.AddSeries | database.py:57-76 | the series table becomes the `add_series` table, the others are unchanged and validity is kept |
| Database.Database.WatchSeries | database.py:79-100 | the series table gets the new flag on that id, the others are unchanged and validity is kept |
| Database.Database.GetWatchedSeries | database.py:102-117 | the watched series in title order |
| Database.Database.ClearSeries | database.py:120-128 | the rows of that id are deleted, the other tables unchanged, validity kept |
| Database.Database.AddEpisode | database.py:134-164 | false with nothing stored exactly where `strftime` raises, else the row is appended; the other tables unchanged, validity kept |
| Database.Database.ClearAllEpisodes | database.py:167-175 | the episode rows of that series are deleted, the other tables unchanged, validity kept |
| Database.Database.GetAllEpisodes | database.py:179-192 | the read of every joined row of the series, which cannot raise on a valid database |
| Database.Database.GetEpisodes | database.py:195-208 | the read of the joined rows of that season, which cannot raise on a valid database |
| Database.Database.GetEpisode | database.py:211-225 | the one joined row with those numbers, None for zero or several; an episode found has those numbers and series; cannot raise on a valid database |
| Database.Database.GetEpisodeByDate | database.py:228-245 | EpisodeByDate on the tables, which cannot raise on a valid database for a real day from 1900 on |
| Database.Database.GetMovie | database.py:250-265 | MovieLookup on the movie table |
| Database.Database.GetAllMovies | database.py:268-282 | the read of every movie row in order, the first error raised |
| Database.Database.AddMovie | database.py:285-299 | Ok(true) exactly when the movie was absent and is now stored, Ok(false) when it was there, Err with nothing changed when reading the existing row raised |
| Database.Database.ClearMovie | database.py:302-310 | the rows of that IMDb id are deleted, the other tables unchanged, validity kept |
| Remote.Provider.constructor | thetvdb.py:23-40 | the guide's answers are the given functions, with no request made yet |
| Remote.Provider.GetSpecificEpisode | thetvdb.py:115-131 | the guide's answer for the numbers, one request more |
| Remote.Provider.GetSpecificEpisodeByDate | thetvdb.py:133-152 | the guide's answer for the day, one request more |
| Remote.Provider.GetFullEpisodeList | thetvdb.py:96-113 | the guide's full list for the series, one request more |
| FilePatterns.FourDigitYear | file_matcher.py:141-147 | a year above 99 is kept, 41..99 is in the 1900s, up to 40 is in the 2000s |
| FilePatterns.FourDigitYearWindow | file_matcher.py:141-147 | a two-digit year names the one year of 1941..2040 ending in it |
| FilePatterns.MatchByEpisode | file_matcher.py:7 | None exactly when the pattern fits at no position; otherwise the numbers read at the last position that fits |
| FilePatterns.NoEpisodeAfter | file_matcher.py:7 | after the matched position no position fits the pattern |
| FilePatterns.EpisodeExtraction | file_matcher.py:7 | for a name with one `s<digits>[sep]e<digits>` tag the numbers read are the tag's digits |
| FilePatterns.EpisodeFitsShape | file_matcher.py:7 | the pattern fits only at an 's' followed by a digit |
| FilePatterns.MatchByEpisodeAt | file_matcher.py:7 | the tag at a position is the match when none can start after it |
| FilePatterns.EpisodeScenarioPlain | file_matcher.py:7 | `Show.S01E02.avi` reads season 1, episode 2 |
| FilePatterns.EpisodeScenarioSeparator | file_matcher.py:7 | `show.s3xe10.avi`, with an 'x' before the 'e', reads season 3, episode 10 |
| FilePatterns.EpisodeScenarioLast | file_matcher.py:7 | `s01e02.s03e04.avi` reads the last tag, season 3, episode 4 |
| FilePatterns.NoEpisodeWithoutE | file_matcher.py:7 | `show 3x10.avi`, without 's' and 'e', gives no numbers |
| FilePatterns.SkipEpisodeWords | file_matcher.py:8 | skipping ends at or after i, where no further "episode" word starts |
| FilePatterns.MatchByFolder | file_matcher.py:8 | None exactly when the folder pattern fits at no position; otherwise the numbers read at the last position that fits |
| FilePatterns.DateSepClass | file_matcher.py:4-5 | the separator class is exactly '.', '/'..'_' and the lower-case letters; '-' is not in it |
| FilePatterns.MatchByDate | file_matcher.py:9 | None exactly when the date pattern fits at no position; otherwise the raw fields read at the last position that fits |
| FilePatterns.DateNeedsBothSides | file_matcher.py:4-5 | a date fits only after a non-digit and before a non-digit |
| FilePatterns.DateScenarioDots | file_matcher.py:9 | `Show.03.05.2011.avi` reads 2011, month 3, day 5 |
| FilePatterns.DateScenarioDashes | file_matcher.py:4-5 | `Show.2011-03-05.avi` gives no date |
| FilePatterns.DateScenarioAtStart | file_matcher.py:4-5 | `03.05.2011.avi` gives no date, having no non-digit before it |
| FilePatterns.DateScenarioLetters | file_matcher.py:4-5 | `x.12x25x10.avi` reads year 10, month 12, day 25, and year 10 means 2010 |
| TitlePattern.CleanPieces | file_matcher.py:86 | one cleaned piece per piece |
| TitlePattern.TitleTokens | file_matcher.py:86-91 | no token is an ignore word |
| TitlePattern.MaskCharsStep | file_matcher.py:83-84 | replacing one more ignored character by a space extends the mask |
| TitlePattern.BuildSeriesTitleTokens | file_matcher.py:78-94 | the replace loop, the split and the filter loop give exactly TitleTokens |
| TitlePattern.TitleTokensShape | file_matcher.py:86 | every token is lower-case and has no space |
| TitlePattern.TitleTokensOfWords | file_matcher.py:78-94 | a title of space-free words separated by single spaces yields those words stripped and lower-cased, ignore words dropped |
| TitlePattern.EmptyTokenSurvives | file_matcher.py:86-91 | `Law  Order` yields an empty token between the words, dropped only when '' is an ignore word |
| TitlePattern.ChainAtIff | file_matcher.py:11-12 | the backtracking match of the token chain at a position agrees with its declarative reading |
| TitlePattern.SepThenIff | file_matcher.py:11 | after part of a separator run, the rest of the chain matches exactly when it starts after some longer part of that run |
| TitlePattern.MatchFromIff | file_matcher.py:12 | scanning from a start finds the title exactly when the chain starts at some later position with no newline before it |
| TitlePattern.MatchesSeriesTitle | file_matcher.py:97-102 | `matches_series_title` holds exactly when the title pattern matches somewhere in the path |
| TitlePattern.TitleFoundInPath | file_matcher.py:97-102 | a path holding the tokens joined by single spaces, after a newline-free prefix and before the line's end, matches |
| TitlePattern.TitleScenarios | file_matcher.py:11-12 | `law order` matches `Law.Order.S01E02.avi`; tokens separated by '/' do not match |
| FileMatcher.NewFileMatcher | file_matcher.py:63-73 | the matcher keeps the series, and its tokens are the title's TitleTokens |
| FileMatcher.CandidateList | file_matcher.py:104-138 | at most two candidates: an EpisodeMatch exactly when numbers were read, first; a DateMatch exactly when a day was read, last |
| FileMatcher.MatchEpisode | file_matcher.py:104-138 | the loop gives Candidates of the path |
| FileMatcher.ReadEpisodeNumbers | file_matcher.py:108-124 | the numbers come from the `s01e02` tag of the file name, or else from a `Season` folder of the slash-converted path, as EpisodeNumbers reads them |
| FileMatcher.ReadDate | file_matcher.py:125-136 | the date comes from whichever of the two date layouts matched, with a two-digit year widened, as DateFields reads it |
| FileMatcher.EpisodeTagInName | file_matcher.py:113-122 | a file name holding one episode tag gives exactly its two numbers |
| FileMatcher.FolderCandidate | file_matcher.py:113-122 | `/tv/Show/Season 2/Episode 5.avi` gives exactly one candidate, season 2 episode 5, and no date candidate |
| FileMatcher.GetEpisodeMetadata | file_matcher.py:24-59 | the result, episode table and request count of the cache-aside resolution; series and movies unchanged, validity kept |
| FileMatcher.ResolveHitOrMiss | file_matcher.py:24-59 | a cache hit asks nothing and changes nothing; a miss on both sides returns None and changes nothing; the table changes only to store the remote answer returned |
| FileMatcher.ResolveThenHit | file_matcher.py:24-59 | a remote answer for a cached series is stored, and resolving again reads it from the cache without asking |
| FileMatcher.QueriesAroundAdd | file_matcher.py:24-35 | an unanswered query reads None before the episode is stored and the stored episode after |
| FileMatcher.QueryOfCandidate | file_matcher.py:48-59 | an episode candidate queries by its numbers, a date candidate by its day |
| FileManager.SeriesNameKeepsExtension | file_manager.py:278-281 | the library name has the original file's extension |
| FileManager.SeriesNameReadsBack | file_manager.py:278-281 | the episode pattern reads the library name's season and episode back |
| FileManager.TagReadsBack | file_manager.py:18 | an `s<S>_e<E>` tag between a newline-free prefix and a suitable suffix reads back as S and E |
| FileManager.MovieNameDisc | file_manager.py:284-289 | the stem is `title (year) [id]`, a disc adding ` Disc<n>` before the id; the name splits back into that stem and the original extension |
| FileManager.LibraryPathParts | file_manager.py:292-295 | the path is base/title/`Season NN`; its split gives base/title and the season folder, whose digits read back as the season |
| FileManager.HasExtensionIff | file_manager.py:269-275 | the end test is exactly the regular expression's match |
| FileManager.HasExtensionPlain | file_manager.py:269-275 | a newline-free name is media exactly when it ends, ignoring case, with '.' and the extension |
| FileManager.IsMediaFile | file_manager.py:269-275 | true exactly when some configured extension matches the name |
| FileManager.FreshnessWithinDay | file_manager.py:75-85 | within a day a file is ready exactly after wait + 1 whole minutes |
| FileManager.FreshnessRepeatsDaily | file_manager.py:75-85 | whole days do not count: a file is as fresh again a day later |
| FileManager.AgeInMinutesWhole | file_manager.py:241-246 | the clean-up age is the whole age in minutes, rounded down |
| FileManager.FileSystem.constructor | file_manager.py:254-261 | the file system holds the given paths and links |
| FileManager.LockProtocol | file_manager.py:254-266 | the lock is held after any acquire, a second acquire fails, an acquire after a release succeeds, no other path is touched |
| FileManager.EnsureFolder | file_manager.py:208-209 | `makedirs` only where the path does not exist: it raises, changing nothing, exactly when the name is a dangling link; otherwise the folder is there |
| FileManager.LinkIfMissing | file_manager.py:224-225 | `symlink` only where the path does not exist: it raises, changing nothing, exactly when the name is a dangling link; otherwise the name is there, linked to the target when it was missing |
| FileManager.RecentRunEffect | file_manager.py:176-198 | `add_to_recent` succeeds exactly when the folder is not a dangling link and neither link name is taken; the folder then exists, the new link names the library file and, in pyTivo format, the sidecar link its sidecar; nothing is removed or redirected and no other name added |
| FileManager.RecentRunGrows | file_manager.py:176-198 | nothing is removed, and no link is added or redirected on a name that was there |
| FileManager.GenreLinksEffect | file_manager.py:215-230 | nothing is removed, no existing link redirected, new links point at the media file or its sidecar; when no call raised, every non-blank genre holds an entry for the name |
| FileManager.GenreStepEffect | file_manager.py:215-230 | one genre step keeps every path and link, new links point at the media file or its sidecar, and a non-blank genre that raised nothing gets an entry |
| FileManager.GenreLinksStopAtError | file_manager.py:215-230 | once a genre raises, the later genres change nothing |
| FileManager.GenreStepSucceeds | file_manager.py:215-230 | without dangling links, and with the media file and sidecar there, a genre step never raises and leaves no dangling link |
| FileManager.GenreLinksSucceed | file_manager.py:215-230 | the same for the whole genre loop |
| FileManager.GenreStepDangling | file_manager.py:224-225 | a dangling link where the genre entry goes makes the step raise with nothing changed |
| FileManager.SweepRemovesExpired | file_manager.py:235-250 | only existing expired media entries and their sidecars are removed, and all of them when the sweep runs to the end |
| FileManager.SweepStopsAtError | file_manager.py:235-250 | once an entry raises, later entries change nothing |
| FileManager.SweepMissingFolder | file_manager.py:236 | without the recent-additions folder the listing raises and nothing is removed |
| FileManager.SweepDanglingRaises | file_manager.py:237-240 | a listed media entry that is a dangling link makes the clean-up raise |
| FileManager.SearchSkips | file_manager.py:54-68 | a matcher whose title the path does not match is passed over |
| FileManager.SearchTries | file_manager.py:54-68 | a matching matcher's candidates are tried; an error or a hit ends the search, otherwise it goes on from the rest |
| FileManager.NoTitleNoSearch | file_manager.py:54-68 | a path matching no matcher's title consults nothing and finds nothing |
| FileManager.CandidateFound | file_manager.py:58-66 | a hit comes from one of the candidates, path and series; the request count never goes down |
| FileManager.MatchHasTitle | file_manager.py:54-68 | a result names a matcher whose title the path matches, and its series; the request count never goes down |
| FileManager.MatchersFor | file_manager.py:44-47 | one matcher per watched series |
| FileManager.BuildMatchers | file_manager.py:44-47 | the constructor's loop builds exactly MatchersFor |
| FileManager.FileManager.constructor | file_manager.py:23-50 | the extensions are the configured text split on ',', and a matcher is built per watched series in title order |
| FileManager.FileManager.MatchFile | file_manager.py:54-68 | a file too fresh gives None with nothing asked or stored; otherwise the result, episode table and request count of searching the matchers; validity kept |
| FileManager.FileManager.SearchFrom | file_manager.py:54-68 | one round of the outer loop: either the search's outcome, or the search of the rest from the new state |
| FileManager.FileManager.TryMatcher | file_manager.py:57-66 | the outcome of trying the matcher's candidates for the path, in order |
| FileManager.FileManager.TryCandidates | file_manager.py:59-66 | the outcome of trying the candidates in order, as SearchCandidates specifies |
| FileManager.FileManager.TryCandidate | file_manager.py:63-66 | one candidate either ends the search with its answer or error, or leaves the rest of the search to go on from the new cache and request count |
| FileManager.FileManager.GetProcessLock | file_manager.py:254-261 | None when the lock file exists; otherwise it is created and returned; links unchanged |
| FileManager.FileManager.RelinquishProcessLock | file_manager.py:264-266 | the lock file is removed and nothing else |
| FileManager.FileManager.CleanupRecentFolder | file_manager.py:235-250 | the paths and links lose exactly what the sweep removes; false exactly where the sweep raises: a missing folder, a missing or dangling media entry, a missing sidecar |
| FileManager.FileManager.CleanupEntry | file_manager.py:238-248 | one listed entry swept as the sweep step specifies, a dangling link raising at `getctime` |
| FileManager.FileManager.AddToGenres | file_manager.py:201-232 | false and nothing touched without a root or genres; otherwise the root and every genre linked as GenreRun specifies, true when nothing raised and an error when `makedirs` or `symlink` raised |
| FileManager.FileManager.AddUnderRoot | file_manager.py:208-230 | the root folder, then the genre loop stopping at the first call that raises, as GenreRun specifies |
| FileManager.FileManager.EnsurePath | file_manager.py:221-222 | the folder step of EnsureFolder |
| FileManager.FileManager.EnsureLink | file_manager.py:224-225 | the link step of LinkIfMissing |
| FileManager.FileManager.AddToRecent | file_manager.py:176-198 | the tree RecentRun gives, and true exactly when no `os` call raised |
| FileManager.FileManager.AddGenre | file_manager.py:215-230 | one genre linked as the genre step specifies, and whether a call raised |
| Meliman.ActionFlags | meliman.py:63-69 | one truth value per action option, eleven in all |
| Meliman.FlagOf | meliman.py:63-69 | each action's position among the eleven flags |
| Meliman.DoAction | meliman.py:63-101 | no action exactly when the number of options set is not one, and otherwise the chain's choice |
| Meliman.ChosenIsTheOne | meliman.py:71-101 | with one option set, the chain chooses an action and that action's flag is the only one set |
| Meliman.SpecificIsResolve | meliman.py:167-176 | `get_specific_episode` is the cache-aside resolution of an episode-number candidate |
| Meliman.SpecificThenCached | meliman.py:167-176 | a remote hit is stored, so asking again is answered from the cache without a request |
| Meliman.GetSpecificEpisode | meliman.py:167-176 | the result and episode table of SpecificEpisode, with one request exactly when the cache had no answer; validity kept |
| Meliman.UnknownSeriesAsWrittenRaises | meliman.py:133-137 | the unknown-series branch with `%i` ends in 11 for every id text |
| Meliman.UnknownSeriesReports | meliman.py:133-137 | the branch with `%s` ends in 2 for every id text |
| Meliman.FillCacheAppends | meliman.py:139-143 | filling keeps the existing rows, adds at most one per listed episode, exactly one each when it completes, all of that series |
| Meliman.LookupArity | meliman.py:127-131 | exit 1 exactly when the pattern has more than three parts; every exit is 0, 1, 3 or 11, never 2 |
| Meliman.AnswerCodes | meliman.py:146-165 | answering from the cache ends in 0, 3 or 11 |
| Meliman.LookupUnknownSeries | meliman.py:133-137 | as written, an id of no cached series gives 11, touches nothing and asks nothing |
| Meliman.LookupUnknownSeriesIntended | meliman.py:133-137 | with the message corrected, such an id gives 2, touches nothing and asks nothing |
| Meliman.LookupRunsAgree | meliman.py:127-165 | the lookup as written and as corrected agree on every pattern whose id names a cached series |
| Meliman.LookupFillsOnlyEmptyCache | meliman.py:139-160 | a cached series is answered with at most the one request of a three-part pattern; an uncached one gets the full list stored first |
| Meliman.AnswerExtends | meliman.py:146-160 | answering adds at most the one fetched episode and one request |
| Meliman.SpecificExtends | meliman.py:167-176 | the cache-aside fetch only appends to the episode table |
| Meliman.FillFromRemote | meliman.py:139-143 | the fill loop gives FillCache's table and outcome, with one request |
| Meliman.DoEpisodeLookup | meliman.py:122-165 | the exit code, printed episodes, episode table and requests of EpisodeLookupRun, the lookup as written; validity kept |
| Meliman.AnswerLookup | meliman.py:146-165 | the answering part gives LookupAnswer's outcome |
| Meliman.WatchSeriesGuts | meliman.py:194-214 | with the calls at meliman.py:197 and :207 matching their callees: 2 for a non-integer id, 3 for an unknown series, 0 with the flag set; only then does the series table change |
| Meliman.ProcessFileOrder | meliman.py:397-426 | never copies over a library file; copy, metadata and recent run in order, the first failure ends the run, nothing changes before a copy, and a copied file is in the library |
| Meliman.ProcessFileRecent | meliman.py:420-422 | after the copy and the sidecar, the file is added exactly when `add_to_recent` raised nothing, and then the recent-additions folder exists with a link to the library file and one to its sidecar |
| Meliman.ProcessFile | meliman.py:397-426 | the result and new tree of ProcessFileRun, the recent-additions folder and links included |
| Meliman.CollectMediaFiles | meliman.py:377-381 | exactly the walk's media files, as Filter keeps them |
| Meliman.ProcessAllKeeps | meliman.py:384-387 | copying removes no name and neither adds nor redirects a link on a name already there, so whatever existed still exists |
| Meliman.FileRunKeeps | meliman.py:397-426 | the same for one file |
| Meliman.ProcessRun | meliman.py:366-392 | exit 1 exactly when the input folder does not exist, 2 exactly when the library folder does not, both touching nothing; otherwise 0, or 11 when the clean-up raises |
| Meliman.ProcessRunNeedsRecentFolder | meliman.py:389-392 | when the recent-additions folder still does not exist after processing (no file was added to it), the run gives 11, sweeping nothing |
| Meliman.AddedRunEndsClean | meliman.py:366-392 | a run whose one file is added creates the recent-additions folder, and with that folder listing the new link and its sidecar link the run gives 0, whatever their age |
| Meliman.SweepAddedEntry | file_manager.py:235-250 | the clean-up raises nothing over a recent link to an existing file and its sidecar link |
| Meliman.DoProcess | meliman.py:354-394 | 3 with nothing touched exactly when the lock is held; otherwise ProcessRun's outcome with the lock released |
| Meliman.ProcessHeld | meliman.py:366-392 | the body inside `try` gives ProcessRun's code and tree |
| Meliman.ProcessFiles | meliman.py:384-387 | the loop leaves the tree ProcessAll specifies |
| SyncDb.SyncFlags | scripts/syncdb.py:45-52 | one truth value per action option, four in all |
| SyncDb.SyncFlagOf | scripts/syncdb.py:45-52 | each action's position among the four flags |
| SyncDb.SyncChosenIsTheOne | scripts/syncdb.py:53-66 | with one option set, the chosen action's flag is the only one set |
| SyncDb.SyncDoAction | scripts/syncdb.py:45-73 | Ok exactly when one option is set and, for an action needing the database, a file argument is given; then it is the chosen action |
| SyncDb.MigrationNumberIff | scripts/syncdb.py:13 | a number comes back exactly when the name matches the schema pattern, and it is the digit group's value |
| SyncDb.QualifyingExactly | scripts/syncdb.py:150-154 | the collected migrations are exactly the matching names with their numbers |
| SyncDb.QualifyingEmptyIff | scripts/syncdb.py:156-157 | nothing is collected exactly when no name matches |
| SyncDb.InsertByNumber | scripts/syncdb.py:160 | the result is the list with the migration added, as a multiset |
| SyncDb.InsertBounded | scripts/syncdb.py:160 | a lower bound of the migration and the list bounds the result |
| SyncDb.InsertSorted | scripts/syncdb.py:160 | inserting into a sorted list keeps it sorted |
| SyncDb.SortByNumber | scripts/syncdb.py:160 | a permutation of the migrations, sorted by number |
| SyncDb.GetMigrations | scripts/syncdb.py:142-162 | Err with the message naming the directory exactly when no name matches; otherwise the matches sorted by number |
| SyncDb.HeadIsHighest | scripts/syncdb.py:80-81 | HEAD, the last sorted migration, has the highest number of the matching names |
| SyncDb.LatestRow | scripts/syncdb.py:180-194 | a row of the table whose id is the highest |
| SyncDb.NewestIsLatest | scripts/syncdb.py:180-194 | when the newest row is last, the version is the last row's |
| SyncDb.Recorded | scripts/syncdb.py:196-202 | fails without a version table; otherwise the newly recorded row is the newest |
| SyncDb.Connection.constructor | scripts/syncdb.py:69-73 | the connection holds the given database and engine behaviour |
| SyncDb.Connection.ExecuteScript | scripts/syncdb.py:109-111 | the store and outcome of Executed: a failing script changes nothing |
| SyncDb.Connection.InsertDatabaseVersion | scripts/syncdb.py:196-202 | the store and outcome of Recorded |
| SyncDb.PrintOnlyTouchesNothing | scripts/syncdb.py:105-106 | with print-only nothing is executed and nothing recorded |
| SyncDb.ApplyKeepsHistory | scripts/syncdb.py:97-119 | scripts are only ever added to what was executed, failure or not |
| SyncDb.AppliedExactlyPlan | scripts/syncdb.py:97-119 | a run without an exception executed the planned scripts and recorded their numbers, as Followed states |
| SyncDb.AppliedStep | scripts/syncdb.py:97-119 | a migration executed and recorded, then the rest of the plan |
| SyncDb.StepRecords | scripts/syncdb.py:108-119 | running one script appends it to what was executed and its number to the versions, newest last |
| SyncDb.PlanCons | scripts/syncdb.py:97-98 | the texts and numbers of a plan with a head |
| SyncDb.PlanSorted | scripts/syncdb.py:97-98 | the plan drawn from sorted migrations is ascending |
| SyncDb.LastRecordedIsVersion | scripts/syncdb.py:180-202 | the last recorded number is the resulting version |
| SyncDb.ToMigrationCases | scripts/syncdb.py:88-93 | the apply loop runs when the request is above the version; nothing is touched otherwise |
| SyncDb.ToMigrationPrintOnly | scripts/syncdb.py:105-106 | with print-only the database is left as it was, whatever happens |
| SyncDb.ToMigrationApplied | scripts/syncdb.py:76-120 | a successful migration executes the plan in ascending order, records it, and ends at its highest number, for HEAD the highest there is |
| SyncDb.HeadIsLastPlanned | scripts/syncdb.py:80-86 | requesting the last migration puts it last in the plan when it is above the version |
| SyncDb.DoToMigration | scripts/syncdb.py:76-120 | the store and outcome of ToMigrationRun |
| SyncDb.ApplyMigrations | scripts/syncdb.py:97-119 | the store and outcome of ApplyFrom |
| SyncDb.ApplyMigration | scripts/syncdb.py:98-119 | one pass: an error ends ApplyFrom here; otherwise ApplyFrom goes on from the next migration |
| BulkRenameMovies.LineEnd | scripts/bulkRenameMovies.py:67 | past i, with no '\n' before the last character, and ending in '\n' unless at the end of the text |
| BulkRenameMovies.FileLines | scripts/bulkRenameMovies.py:67 | the lines are non-empty, have no '\n' before their last character, and all but the last end in '\n' |
| BulkRenameMovies.FileLinesConcat | scripts/bulkRenameMovies.py:67 | the lines put back together are the file |
| BulkRenameMovies.InstructionIff | scripts/bulkRenameMovies.py:68-72 | a line is an instruction exactly when it holds one semicolon |
| BulkRenameMovies.CollectInOrder | scripts/bulkRenameMovies.py:66-76 | collecting succeeds exactly when every result does, and gives their values in order |
| BulkRenameMovies.Parsed | scripts/bulkRenameMovies.py:68-72 | one instruction result per line, in order |
| BulkRenameMovies.InstructionsInOrder | scripts/bulkRenameMovies.py:63-76 | reading succeeds exactly when every line is an instruction, and gives one per line in file order |
| BulkRenameMovies.InstructionsOkIff | scripts/bulkRenameMovies.py:63-76 | reading succeeds exactly when every line holds one semicolon |
| BulkRenameMovies.ReadInstructions | scripts/bulkRenameMovies.py:63-76 | the loop gives the Instructions of the file's lines: the first bad line's error, or every instruction |
| BulkRenameMovies.ProcessArgs | scripts/bulkRenameMovies.py:41-60 | the file and folder exactly when there are two arguments after the script name, a file then a directory |
| BulkRenameMovies.MovieDirectory.Move | scripts/bulkRenameMovies.py:25 | the entries and outcome of Moved: fails without a source, else the source name is replaced by the destination |
| BulkRenameMovies.RenamedCompose | scripts/bulkRenameMovies.py:22-29 | every instruction is attempted: a list's renames are its first part's then the rest's, success flags conjoined |
| BulkRenameMovies.RenamedAllPresent | scripts/bulkRenameMovies.py:22-29 | renames of present names to unused names all succeed, and the folder holds the new names in place of the old |
| BulkRenameMovies.RenameAll | scripts/bulkRenameMovies.py:22-29 | the loop leaves the folder and success flag Renamed gives |
| BulkRenameMovies.BulkRename | scripts/bulkRenameMovies.py:10-38 | 1 for bad arguments and a raise for a bad instruction file, both touching nothing; otherwise the Renamed folder and 0 when every rename succeeded, else 2 |

## Left out

- `thetvdb.py` (XML over HTTP), `moviedb.py` and `config.py`: the remote guide is a class whose answers are fixed functions; configuration values are parameters or fields.
- I/O, printing and the clock: output text is left out. Ages of files are parameters in seconds, where the code uses `getctime`/`getmtime`. The recording timestamp of a migration is not stored.
- The real file system and SQLite: a set of paths with a map of links, and sequences of rows. Directories and files are not told apart; `makedirs` adds only the final folder.
- FileManager.IsMediaFile: extensions are taken as literal text; regular-expression characters in the configured extensions are not modelled.
- TitlePattern.MatchesSeriesTitle, FileMatcher.NewFileMatcher: the title tokens are matched as literal text. The code joins them into the pattern at file_matcher.py:93-94 without `re.escape`, so in the code a `.` in a title matches any character and `(500)` is a group. A title such as `C++` is not a valid pattern, and `re.compile` (file_matcher.py:69 and :76) raises `re.error` when the matcher is built. Regular-expression characters in titles are not modelled.
- TitlePattern.MatchesSeriesTitle: holds when the tokens occur as literal text; a title whose tokens carry regular-expression characters may match other paths in the code, or fail to compile.
- FileMatcher.NewFileMatcher: always builds a matcher; in the code a title whose tokens are not a valid pattern makes the constructor raise `re.error` at file_matcher.py:69.
- Metadata.FormatForPyTivo: the star-rating floating-point arithmetic is left out; its integer result is a parameter.
- Metadata.NewEpisode: its contract states only validity; the default field values are stated by NewEpisodeRender.
- `unicode_to_ascii` and the non-ASCII behaviour of `strip`/`lower`: strings are treated as ASCII.
- `get_info_for_file` and `generate_metadata` are not part of this model: what identifying a file gives is the `infoOf` parameter of `ProcessFile`/`DoProcess`. The `SeriesMatcher`/`MovieMatcher` classes they refer to are not in the sources.
- `copy_media_to_library` and `write_metadata`: only their success or failure (the `stepsOf` parameter) and the paths they create are modelled; a copy that fails part-way is modelled as no change, and the sidecar content is left out.
- FileManager.RecentRun: `add_to_recent` raises only where a name is in the way (a dangling folder link, a taken link name); other `os` errors, such as permissions, are not modelled. The clock's text is the `stamp` of `stepsOf`.
- `match_movie_file`, `generate_episode_metadata`, `generate_movie_metadata`, `clear_existing_metadata`, `do_generate`, `generate_for_file`, `do_regenerate`: movie matching and metadata regeneration are left out; they go through the movie guide and the file-information step that are not modelled.
- `do_series_lookup`, `do_clear_episodes`, `do_list_watched_series`, `do_cleanup_file_name`, `do_metadata`, `print_episodes`, `print_series`: left out; they print or call the remote series search, and the database operations they use are modelled.
- Series ids given as text are compared with the integer id column as SQLite's type affinity does, modelled as Python's `int()`.
- `do_database_info`, `do_schema_info`, `do_force_version`: they only print or write one version row; left out.
- SyncDb.Connection.ExecuteScript: `executescript` committing part of a failing script is not modelled; a failing script changes nothing. The engine's behaviour on a script text is a parameter.
- `read_migration_text`: the file contents are the `textOf` parameter.
- SyncDb.ApplyMigrations, SyncDb.ApplyMigration: the error messages of `ApplyFrom` end at the migration number (or, for the version row, at "database"); the `: %s` text of the caught exception that scripts/syncdb.py:103, :117 and :202 append is not modelled, since the model has no exception objects.
- SyncDb.SortByNumber: states a sorted permutation; the stability of Python's sort is not stated.
- BulkRenameMovies.MovieDirectory.Move: `shutil.move` onto an existing name or into a destination directory is modelled as replacing the name in the folder's set of entries.
- Calls whose arguments do not match the callee: `Database(config)` at meliman.py:125, meliman.py:197 and meliman.py:356 against `__init__(self, config, debug)` at database.py:16; `FileManager(config, database, thetvdb)` at meliman.py:357 against five parameters at file_manager.py:23; `write_metadata(…, episode, debug)` at meliman.py:417 against three at file_manager.py:156; `add_to_recent(…, episode)` at meliman.py:421 against two at file_manager.py:176; `watch_series(series, watch, debug)` at meliman.py:207 against two at database.py:79; `add_episode(e, series, debug)` at meliman.py:143 and `add_episode(result, series, debug)` at meliman.py:174 against two at database.py:134; `get_library_file_name` at meliman.py:271 and meliman.py:407, which file_manager.py does not define (the series name builder is `get_series_library_file_name` at file_manager.py:278). Each would raise `TypeError` or `AttributeError`; the model follows the callees' definitions, so Meliman.GetSpecificEpisode, Meliman.FillFromRemote, Meliman.DoEpisodeLookup and Meliman.ProcessFile store or name what the callee would. In `process_file` the copy and metadata steps are the `stepsOf` parameter, which can report the failures such calls give (the `try` in `process_file` turns them into a skipped file).
- Meliman.GetSpecificEpisode: stores a guide answer through `add_episode` as database.py:134-164 defines it; as written, the call at meliman.py:174 passes a third argument `debug`, which raises `TypeError` before anything is stored.
- Meliman.SpecificThenCached: stores a guide answer through `add_episode` as database.py:134-164 defines it; as written, the call at meliman.py:174 passes a third argument `debug`, which raises `TypeError` before anything is stored.
- Meliman.AnswerLookup: stores a guide answer through `add_episode` as database.py:134-164 defines it; as written, the call at meliman.py:174, reached through `get_specific_episode` passes a third argument `debug`, which raises `TypeError` before anything is stored.
- Meliman.FillFromRemote: stores a guide answer through `add_episode` as database.py:134-164 defines it; as written, the call at meliman.py:143 passes a third argument `debug`, which raises `TypeError` before anything is stored.
- Meliman.FillCacheAppends: stores a guide answer through `add_episode` as database.py:134-164 defines it; as written, the call at meliman.py:143 passes a third argument `debug`, which raises `TypeError` before anything is stored.
- Meliman.LookupFillsOnlyEmptyCache: stores a guide answer through `add_episode` as database.py:134-164 defines it; as written, the call at meliman.py:143 passes a third argument `debug`, which raises `TypeError` before anything is stored.
- Meliman.DoEpisodeLookup: stores a guide answer through `add_episode` as database.py:134-164 defines it; as written, the calls at meliman.py:143 and meliman.py:174 pass a third argument `debug`, which raises `TypeError` before anything is stored.
- DateTimes.StrptimeYmd, DateTimes.StrptimeTime: only fixed-width fields are accepted, where `strptime` also reads one-digit fields such as `2010-5-4`; this changes only rows the program did not write itself.
- FileManager.FileManager.GetProcessLock, FileManager.FileManager.RelinquishProcessLock: the lock file's `os.path.exists` is read as the name being present, so a dangling link at the lock path counts as a held lock.
- Meliman.WatchSeriesGuts: as written, `Database(config)` at meliman.py:197 raises `TypeError` inside the `try` of meliman.py:195-214, before the id is parsed, so every input ends in 11 (and the three-argument `watch_series` at meliman.py:207 would raise too). The model follows the callees' definitions: codes 2, 3 and 0 are what the function gives once those calls match.
- FileManager.MatchersFor: `SeriesMatcher`, imported at file_manager.py:11 and built at file_manager.py:47, is not defined in file_matcher.py, whose only class is `FileMatcher` (file_matcher.py:62); as written the import raises `ImportError`. The model reads `SeriesMatcher(config, series, debug)` as `FileMatcher(config, series, debug)` (file_matcher.py:63).
- FileManager.BuildMatchers: builds `FileMatcher` values in place of the undefined `SeriesMatcher` of file_manager.py:47, as for FileManager.MatchersFor.
- FileManager.FileManager.MatchFile: tries `FileMatcher` values in place of the undefined `SeriesMatcher`, as for FileManager.MatchersFor.
- Remote.Provider.constructor: thetvdb.py has only module functions (thetvdb.py:23-241), while meliman.py imports and builds a class `TheTvDb` (meliman.py:13, :124, :196, :355); as written the import raises `ImportError`. The model gathers those functions in one class. `get_specific_episode` and `get_specific_episode_by_date` take a trailing `debug` (thetvdb.py:115 and :133); meliman.py:170 passes it, but file_matcher.py:27 and :51 do not, which would raise `TypeError`. The model's guide methods take no `debug`, so both callers reach the answer.
- Meliman.ProcessFile: a library destination that is a dangling link does not exist, as `os.path.exists` has it; the copy that then writes through the link is modelled as adding the name only.
- FileManager.FileManager.AddToGenres: the genre list holds strings; a `None` entry, which the code skips, is not modelled.
- Concurrency: the lock file is modelled as a single flag; races between processes are not modelled.

## Findings

| source | as written | input that shows it | evidently intended | confidence | as-written member | corrected member |
|---|---|---|---|---|---|---|
| meliman.py:136 | the unknown-series message formats `series_id`, still the text of the pattern, with `%i`, so the print raises `TypeError` and the handler returns 11 | `do_episode_lookup("999")` with no series 999 cached | print the message and return 2 | not executed | Meliman.LookupUnknownSeries | Meliman.LookupUnknownSeriesIntended |
