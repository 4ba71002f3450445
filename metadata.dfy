/** metadata.py: the Series, Episode and Movie records and the pyTivo sidecar
    text of an episode. */
module Metadata {
  import opened Wrappers
  import opened PyStr
  import opened DateTimes
  import opened Seqs

  datatype Series = Series(
    id: int, dbId: int, title: string, description: string,
    zap2itId: string, imdbId: string, watch: bool,
    actors: seq<string>, genres: seq<string>, contentRating: string)

  datatype Episode = Episode(
    dbId: int, title: string, description: string, time: DateTime, rating: real,
    host: string, choreographer: string,
    directors: seq<string>, guestStars: seq<string>, writers: seq<string>,
    executiveProducers: seq<string>, producers: seq<string>,
    series: Series, seasonNumber: nat, episodeNumber: nat,
    originalAirDate: Option<DateTime>)

  datatype Movie = Movie(
    dbId: int, id: int, title: string, description: string, time: Option<DateTime>, rating: real,
    host: string, choreographer: string,
    directors: seq<string>, guestStars: seq<string>, writers: seq<string>,
    executiveProducers: seq<string>, producers: seq<string>,
    actors: seq<string>, movieYear: int, mpaaRating: string, genres: seq<string>)

  /** Every datetime an episode holds is a real `datetime` value. */
  predicate ValidEpisode(e: Episode)
  {
    Valid(e.time) && (e.originalAirDate.Some? ==> Valid(e.originalAirDate.value))
  }

  const Epoch := DateTime(1900, 1, 1, 0, 0, 0)

  /** `Series()`. */
  function NewSeries(): Series
  {
    Series(0, 0, "", "", "", "", false, [], [], "")
  }

  /** `Episode()`: the MetaData defaults, an empty Series, season 0, episode 0
      and an air date of 1900-01-01. */
  function NewEpisode(): (e: Episode)
    ensures ValidEpisode(e)
  {
    Episode(0, "", "", Epoch, 0.0, "", "", [], [], [], [], [], NewSeries(), 0, 0, Some(Epoch))
  }

  /** `Movie()`: the MetaData defaults, no actors, year 1900 and no MPAA rating. */
  function NewMovie(): Movie
  {
    Movie(0, 0, "", "", Some(Epoch), 0.0, "", "", [], [], [], [], [], [], 1900, "", [])
  }

  // ------------------------------------------------------------ pyTivo lines

  /** The keys a pyTivo line can start with. */
  datatype Key =
    | IsEpisode
    | Title
    | Time
    | Description
    | OriginalAirDate
    | VHost
    | VChoreographer
    | VDirector
    | VGuestStar
    | VWriter
    | VExecProducer
    | VProducer
    | StarRating
    | SeriesTitle
    | SeriesId
    | TvRating
    | VActor
    | VProgramGenre

  /** The text each key is written as. */
  function KeyText(k: Key): string
  {
    match k
    case IsEpisode => "isEpisode : "
    case Title => "title : "
    case Time => "time : "
    case Description => "description: #"
    case OriginalAirDate => "originalAirDate : "
    case VHost => "vHost : "
    case VChoreographer => "vChoreographer : "
    case VDirector => "vDirector : "
    case VGuestStar => "vGuestStar : "
    case VWriter => "vWriter : "
    case VExecProducer => "vExecProducer : "
    case VProducer => "vProducer : "
    case StarRating => "starRating : "
    case SeriesTitle => "seriesTitle : "
    case SeriesId => "seriesId : "
    case TvRating => "tvRating : "
    case VActor => "vActor : "
    case VProgramGenre => "vProgramGenre : "
  }

  datatype Entry = Entry(key: Key, value: string)

  /** The text of one line: its key text, then its value. */
  function Line(k: Key, value: string): string
  {
    KeyText(k) + value
  }

  function Render(es: seq<Entry>): (lines: seq<string>)
  {
    seq(|es|, i requires 0 <= i < |es| => Line(es[i].key, es[i].value))
  }

  lemma RenderAppend(a: seq<Entry>, b: seq<Entry>)
    ensures Render(a + b) == Render(a) + Render(b)
  {
  }

  lemma RenderLength(es: seq<Entry>)
    ensures |Render(es)| == |es|
  {
  }

  /** The values, in order, of the entries with key k. */
  function Values(es: seq<Entry>, k: Key): seq<string>
    decreases |es|
  {
    if es == [] then []
    else (if es[0].key == k then [es[0].value] else []) + Values(es[1..], k)
  }

  lemma {:induction false} ValuesAppend(a: seq<Entry>, b: seq<Entry>, k: Key)
    ensures Values(a + b, k) == Values(a, k) + Values(b, k)
    decreases |a|
  {
    if a == [] {
      assert a + b == b;
    } else {
      assert (a + b)[0] == a[0];
      assert (a + b)[1..] == a[1..] + b;
      ValuesAppend(a[1..], b, k);
    }
  }

  /** The entry of a line the source writes only under condition c. */
  function Maybe(c: bool, k: Key, value: string): seq<Entry>
  {
    if c then [Entry(k, value)] else []
  }

  lemma MaybeFacts(c: bool, k: Key, value: string, j: Key)
    ensures Render(Maybe(c, k, value)) == if c then [Line(k, value)] else []
    ensures Values(Maybe(c, k, value), j) == if c && k == j then [value] else []
  {
    if c { assert [Entry(k, value)][1..] == []; }
  }

  /** The values that `Maybe(c, key, value)` holds under the key `k`. */
  function Pick(c: bool, key: Key, value: string, k: Key): seq<string>
  {
    if c && key == k then [value] else []
  }

  lemma ValuesMaybe(c: bool, k: Key, value: string, j: Key)
    ensures Values(Maybe(c, k, value), j) == Pick(c, k, value, j)
  {
    if c { assert [Entry(k, value)][1..] == []; }
  }

  /** Picks under three distinct keys: at most one of them is non-empty. */
  lemma PickThree(ca: bool, ka: Key, xa: string, cb: bool, kb: Key, xb: string, cc: bool, kc: Key, xc: string, k: Key)
    requires ka != kb && ka != kc && kb != kc
    ensures Pick(ca, ka, xa, k) + Pick(cb, kb, xb, k) + Pick(cc, kc, xc, k) ==
      if k == ka then (if ca then [xa] else [])
      else if k == kb then (if cb then [xb] else [])
      else if k == kc then (if cc then [xc] else [])
      else []
  {
    OnlyOneOfThree(Pick(ca, ka, xa, k), Pick(cb, kb, xb, k), Pick(cc, kc, xc, k));
  }

  /** Picks under four distinct keys: at most one of them is non-empty. */
  lemma PickFour(ca: bool, ka: Key, xa: string, cb: bool, kb: Key, xb: string,
                 cc: bool, kc: Key, xc: string, cd: bool, kd: Key, xd: string, k: Key)
    requires ka != kb && ka != kc && ka != kd && kb != kc && kb != kd && kc != kd
    ensures Pick(ca, ka, xa, k) + Pick(cb, kb, xb, k) + Pick(cc, kc, xc, k) + Pick(cd, kd, xd, k) ==
      if k == ka then (if ca then [xa] else [])
      else if k == kb then (if cb then [xb] else [])
      else if k == kc then (if cc then [xc] else [])
      else if k == kd then (if cd then [xd] else [])
      else []
  {
    OnlyOneOfFour(Pick(ca, ka, xa, k), Pick(cb, kb, xb, k), Pick(cc, kc, xc, k), Pick(cd, kd, xd, k));
  }

  lemma Values3(a: seq<Entry>, b: seq<Entry>, c: seq<Entry>, k: Key)
    ensures Values(a + b + c, k) == Values(a, k) + Values(b, k) + Values(c, k)
  {
    ValuesAppend(a, b, k);
    ValuesAppend(a + b, c, k);
  }

  lemma Values4(a: seq<Entry>, b: seq<Entry>, c: seq<Entry>, d: seq<Entry>, k: Key)
    ensures Values(a + b + c + d, k) == Values(a, k) + Values(b, k) + Values(c, k) + Values(d, k)
  {
    Values3(a, b, c, k);
    ValuesAppend(a + b + c, d, k);
  }

  /** One entry per person, in list order, skipping entries `strip()` empties. */
  function PersonEntries(k: Key, people: seq<string>): seq<Entry>
    decreases |people|
  {
    if people == [] then []
    else
      var last := people[|people| - 1];
      PersonEntries(k, people[..|people| - 1]) + Maybe(Strip(last) != "", k, last)
  }

  /** The entries of a list that are not whitespace only, in order. */
  function Kept(people: seq<string>): seq<string>
    decreases |people|
  {
    if people == [] then []
    else
      var last := people[|people| - 1];
      Kept(people[..|people| - 1]) + (if AllSpace(last) then [] else [last])
  }

  lemma {:induction false} PersonValues(k: Key, people: seq<string>, j: Key)
    ensures Values(PersonEntries(k, people), j) == if j == k then Kept(people) else []
    decreases |people|
  {
    if people != [] {
      var init, last := people[..|people| - 1], people[|people| - 1];
      PersonValues(k, init, j);
      StripEmptyIff(last);
      ValuesAppend(PersonEntries(k, init), Maybe(Strip(last) != "", k, last), j);
      MaybeFacts(Strip(last) != "", k, last, j);
    }
  }

  /** The tivo code of a TV content rating: TV-Y7 x1, TV-Y x2, TV-G x3, TV-PG x4,
      TV-14 x5, TV-MA x6, TV-NR x7, anything else x0. */
  function TvRatingCode(rating: string): (code: string)
  {
    if rating == "TV-Y7" then "x1"
    else if rating == "TV-Y" then "x2"
    else if rating == "TV-G" then "x3"
    else if rating == "TV-PG" then "x4"
    else if rating == "TV-14" then "x5"
    else if rating == "TV-MA" then "x6"
    else if rating == "TV-NR" then "x7"
    else "x0"
  }

  const TvRatings: seq<string> := ["TV-Y7", "TV-Y", "TV-G", "TV-PG", "TV-14", "TV-MA", "TV-NR"]

  /** The seven named ratings get the codes x1..x7 in table order, every other text x0. */
  lemma TvRatingTable(rating: string)
    ensures forall i :: 0 <= i < |TvRatings| ==> TvRatingCode(TvRatings[i]) == "x" + NatToString(i + 1)
    ensures rating !in TvRatings ==> TvRatingCode(rating) == "x0"
    ensures rating in TvRatings ==> TvRatingCode(rating) != "x0"
  {
  }

  /** The value of the description line: the episode number, two spaces and
      the description with its newlines turned into spaces. */
  function DescriptionText(e: Episode): string
  {
    NatToString(e.episodeNumber) + ".  " + ReplaceChar(e.description, '\n', ' ')
  }

  /** The value of the starRating line. */
  function StarText(stars: int): string
  {
    "x" + FormatInt(stars, 0)
  }

  // The entries `format_for_pyTivo` produces, in four consecutive parts.

  function Opening(e: Episode, recorded: string): seq<Entry>
  {
    [ Entry(IsEpisode, "true"), Entry(Title, e.title), Entry(Time, recorded),
      Entry(Description, DescriptionText(e)) ]
  }

  function AirDateEntries(air: Option<string>): seq<Entry>
  {
    if air.Some? then [Entry(OriginalAirDate, air.value)] else []
  }

  function Optional(e: Episode, air: Option<string>): seq<Entry>
  {
    AirDateEntries(air) + Maybe(e.host != "", VHost, e.host) + Maybe(e.choreographer != "", VChoreographer, e.choreographer)
  }

  function People(e: Episode): seq<Entry>
  {
    PersonEntries(VDirector, e.directors)
    + PersonEntries(VGuestStar, e.guestStars)
    + PersonEntries(VWriter, e.writers)
    + PersonEntries(VExecProducer, e.executiveProducers)
    + PersonEntries(VProducer, e.producers)
  }

  /** The star rating, the series title, id and tv rating lines. */
  function SeriesFixed(e: Episode, stars: int): seq<Entry>
  {
    Maybe(stars >= 1, StarRating, StarText(stars))
    + [Entry(SeriesTitle, e.series.title)]
    + Maybe(e.series.zap2itId != "", SeriesId, e.series.zap2itId)
    + Maybe(e.series.contentRating != "", TvRating, TvRatingCode(e.series.contentRating))
  }

  function SeriesPart(e: Episode, stars: int): seq<Entry>
  {
    SeriesFixed(e, stars) + PersonEntries(VActor, e.series.actors) + PersonEntries(VProgramGenre, e.series.genres)
  }

  /** The entries of the sidecar, given the already formatted recording time
      and air date and the integer star rating computed from the episode's
      float rating. */
  function PyTivoEntries(e: Episode, recorded: string, air: Option<string>, stars: int): seq<Entry>
  {
    Opening(e, recorded) + Optional(e, air) + People(e) + SeriesPart(e, stars)
  }

  /** The full `format_for_pyTivo` result: the lines, or an error where
      Python 2's `strftime` refuses a year before 1900. */
  function PyTivoLines(e: Episode, recorded: DateTime, stars: int): Result<seq<string>>
    requires ValidEpisode(e) && Valid(recorded)
  {
    var rec := StrftimeIso(recorded);
    var air := if e.originalAirDate.Some? then StrftimeIso(e.originalAirDate.value) else None;
    if rec.None? || (e.originalAirDate.Some? && air.None?) then Err("year is before 1900")
    else Ok(Render(PyTivoEntries(e, rec.value, air, stars)))
  }

  /** One line per person whose name `strip()` does not empty, in list order. */
  method AppendPeople(lines: seq<string>, ghost es: seq<Entry>, k: Key, people: seq<string>) returns (out: seq<string>)
    requires lines == Render(es)
    ensures out == Render(es + PersonEntries(k, people))
  {
    out := lines;
    for i := 0 to |people|
      invariant out == Render(es + PersonEntries(k, people[..i]))
    {
      var p := people[i];
      ghost var more := Maybe(Strip(p) != "", k, p);
      assert people[..i + 1][..i] == people[..i];
      assert es + PersonEntries(k, people[..i + 1]) == es + PersonEntries(k, people[..i]) + more;
      MaybeFacts(Strip(p) != "", k, p, k);
      RenderAppend(es + PersonEntries(k, people[..i]), more);
      if Strip(p) != "" {
        out := out + [Line(k, p)];
      }
    }
    assert people[..|people|] == people;
  }

  /** Appends the line for (k, value) when c holds. */
  method AppendIf(lines: seq<string>, ghost es: seq<Entry>, c: bool, k: Key, value: string) returns (out: seq<string>)
    requires lines == Render(es)
    ensures out == Render(es + Maybe(c, k, value))
  {
    MaybeFacts(c, k, value, k);
    RenderAppend(es, Maybe(c, k, value));
    out := lines;
    if c {
      out := out + [Line(k, value)];
    }
  }

  /** `Episode.format_for_pyTivo(time_recorded)`, with the star-rating block's
      integer result passed in as `stars`. */
  method FormatForPyTivo(e: Episode, recorded: DateTime, stars: int) returns (r: Result<seq<string>>)
    requires ValidEpisode(e) && Valid(recorded)
    ensures r == PyTivoLines(e, recorded, stars)
  {
    var rec := StrftimeIso(recorded);
    if rec.None? {
      return Err("year is before 1900");
    }
    var air: Option<string> := None;
    if e.originalAirDate.Some? {
      air := StrftimeIso(e.originalAirDate.value);
      if air.None? {
        return Err("year is before 1900");
      }
    }
    var lines := SidecarLines(e, rec.value, air, stars);
    r := Ok(lines);
  }

  /** The lines of `format_for_pyTivo` once the two dates are formatted. */
  method SidecarLines(e: Episode, recorded: string, air: Option<string>, stars: int) returns (lines: seq<string>)
    ensures lines == Render(PyTivoEntries(e, recorded, air, stars))
  {
    lines := [Line(IsEpisode, "true"), Line(Title, e.title), Line(Time, recorded),
      Line(Description, DescriptionText(e))];
    RenderOpening(e, recorded);
    ghost var es := Opening(e, recorded);
    lines := OptionalLines(lines, es, e, air);
    es := es + Optional(e, air);
    lines := PeopleLines(lines, es, e);
    es := es + People(e);
    lines := SeriesLines(lines, es, e, stars);
  }

  /** The air date, host and choreographer lines, each only when present. */
  method OptionalLines(lines: seq<string>, ghost es: seq<Entry>, e: Episode, air: Option<string>) returns (out: seq<string>)
    requires lines == Render(es)
    ensures out == Render(es + Optional(e, air))
  {
    out := lines;
    if air.Some? {
      out := out + [Line(OriginalAirDate, air.value)];
      RenderOne(Entry(OriginalAirDate, air.value));
    }
    RenderAppend(es, AirDateEntries(air));
    ghost var es1 := es + AirDateEntries(air);
    out := AppendIf(out, es1, e.host != "", VHost, e.host);
    ghost var es2 := es1 + Maybe(e.host != "", VHost, e.host);
    out := AppendIf(out, es2, e.choreographer != "", VChoreographer, e.choreographer);
    Regroup3(es, AirDateEntries(air), Maybe(e.host != "", VHost, e.host), Maybe(e.choreographer != "", VChoreographer, e.choreographer));
  }

  /** The director, guest star, writer, executive producer and producer lines. */
  method PeopleLines(lines: seq<string>, ghost es: seq<Entry>, e: Episode) returns (out: seq<string>)
    requires lines == Render(es)
    ensures out == Render(es + People(e))
  {
    ghost var es0 := es;
    out := AppendPeople(lines, es0, VDirector, e.directors);
    ghost var es1 := es0 + PersonEntries(VDirector, e.directors);
    out := AppendPeople(out, es1, VGuestStar, e.guestStars);
    ghost var es2 := es1 + PersonEntries(VGuestStar, e.guestStars);
    out := AppendPeople(out, es2, VWriter, e.writers);
    ghost var es3 := es2 + PersonEntries(VWriter, e.writers);
    out := AppendPeople(out, es3, VExecProducer, e.executiveProducers);
    ghost var es4 := es3 + PersonEntries(VExecProducer, e.executiveProducers);
    out := AppendPeople(out, es4, VProducer, e.producers);
    Regroup5(es, PersonEntries(VDirector, e.directors), PersonEntries(VGuestStar, e.guestStars),
      PersonEntries(VWriter, e.writers), PersonEntries(VExecProducer, e.executiveProducers), PersonEntries(VProducer, e.producers));
  }

  /** The star rating, series title, series id, tv rating, actor and genre lines. */
  method SeriesLines(lines: seq<string>, ghost es: seq<Entry>, e: Episode, stars: int) returns (out: seq<string>)
    requires lines == Render(es)
    ensures out == Render(es + SeriesPart(e, stars))
  {
    out := AppendIf(lines, es, stars >= 1, StarRating, StarText(stars));
    ghost var es1 := es + Maybe(stars >= 1, StarRating, StarText(stars));
    out := AppendIf(out, es1, true, SeriesTitle, e.series.title);
    ghost var es2 := es1 + Maybe(true, SeriesTitle, e.series.title);
    out := AppendIf(out, es2, e.series.zap2itId != "", SeriesId, e.series.zap2itId);
    ghost var es3 := es2 + Maybe(e.series.zap2itId != "", SeriesId, e.series.zap2itId);
    out := AppendIf(out, es3, e.series.contentRating != "", TvRating, TvRatingCode(e.series.contentRating));
    ghost var es4 := es3 + Maybe(e.series.contentRating != "", TvRating, TvRatingCode(e.series.contentRating));
    out := AppendPeople(out, es4, VActor, e.series.actors);
    ghost var es5 := es4 + PersonEntries(VActor, e.series.actors);
    out := AppendPeople(out, es5, VProgramGenre, e.series.genres);
    assert Maybe(true, SeriesTitle, e.series.title) == [Entry(SeriesTitle, e.series.title)];
    Regroup6(es, Maybe(stars >= 1, StarRating, StarText(stars)), [Entry(SeriesTitle, e.series.title)],
      Maybe(e.series.zap2itId != "", SeriesId, e.series.zap2itId),
      Maybe(e.series.contentRating != "", TvRating, TvRatingCode(e.series.contentRating)),
      PersonEntries(VActor, e.series.actors), PersonEntries(VProgramGenre, e.series.genres));
  }

  lemma Regroup3(es: seq<Entry>, a: seq<Entry>, b: seq<Entry>, c: seq<Entry>)
    ensures es + (a + b + c) == es + a + b + c
  {
  }

  lemma Regroup5(es: seq<Entry>, a: seq<Entry>, b: seq<Entry>, c: seq<Entry>, d: seq<Entry>, f: seq<Entry>)
    ensures es + (a + b + c + d + f) == es + a + b + c + d + f
  {
  }

  lemma Regroup6(es: seq<Entry>, a: seq<Entry>, b: seq<Entry>, c: seq<Entry>, d: seq<Entry>, f: seq<Entry>, g: seq<Entry>)
    ensures es + (a + b + c + d + f + g) == es + a + b + c + d + f + g
  {
  }

  lemma RenderOne(x: Entry)
    ensures Render([x]) == [Line(x.key, x.value)]
  {
    assert [x][1..] == [];
  }

  lemma RenderOpening(e: Episode, recorded: string)
    ensures Render(Opening(e, recorded)) ==
      [ Line(IsEpisode, "true"), Line(Title, e.title), Line(Time, recorded),
        Line(Description, DescriptionText(e)) ]
  {
    var op := Opening(e, recorded);
    assert op == [op[0]] + [op[1]] + [op[2]] + [op[3]];
    RenderOne(op[0]);
    RenderOne(op[1]);
    RenderOne(op[2]);
    RenderOne(op[3]);
    RenderAppend([op[0]], [op[1]]);
    RenderAppend([op[0]] + [op[1]], [op[2]]);
    RenderAppend([op[0]] + [op[1]] + [op[2]], [op[3]]);
  }

  // ------------------------------------------------------------ what the lines say

  /** The sidecar opens with the episode marker, the title, the recording time
      and the description line, whose newlines have become spaces; at least
      the series title line follows. */
  lemma SidecarOpening(e: Episode, recorded: string, air: Option<string>, stars: int)
    ensures var lines := Render(PyTivoEntries(e, recorded, air, stars));
      |lines| >= 5
      && lines[0] == "isEpisode : true"
      && lines[1] == "title : " + e.title
      && lines[2] == "time : " + recorded
      && lines[3] == "description: #" + DescriptionText(e)
    ensures var n := NatToString(e.episodeNumber);
      DescriptionText(e)[..|n| + 3] == n + ".  "
      && DescriptionText(e)[|n| + 3..] == ReplaceChar(e.description, '\n', ' ')
      && '\n' !in DescriptionText(e)[|n| + 3..]
  {
    SidecarHeadLines(e, recorded, air, stars);
    DescriptionLayout(e);
  }

  lemma SidecarHeadLines(e: Episode, recorded: string, air: Option<string>, stars: int)
    ensures var lines := Render(PyTivoEntries(e, recorded, air, stars));
      |lines| >= 5
      && lines[0] == "isEpisode : true"
      && lines[1] == "title : " + e.title
      && lines[2] == "time : " + recorded
      && lines[3] == "description: #" + DescriptionText(e)
  {
    var op := Opening(e, recorded);
    var es := PyTivoEntries(e, recorded, air, stars);
    assert |SeriesFixed(e, stars)| >= 1;
    assert |es| >= 5;
    forall i | 0 <= i < 4
      ensures es[i] == op[i]
    {
    }
  }

  lemma DescriptionLayout(e: Episode)
    ensures var n := NatToString(e.episodeNumber);
      DescriptionText(e)[..|n| + 3] == n + ".  "
      && DescriptionText(e)[|n| + 3..] == ReplaceChar(e.description, '\n', ' ')
      && '\n' !in DescriptionText(e)[|n| + 3..]
  {
    var n := NatToString(e.episodeNumber);
    var d := ReplaceChar(e.description, '\n', ' ');
    assert DescriptionText(e) == (n + ".  ") + d;
  }

  // What each key holds, part by part, as the source's branches decide it.

  function OpeningExpected(e: Episode, recorded: string, k: Key): seq<string>
  {
    if k == IsEpisode then ["true"]
    else if k == Title then [e.title]
    else if k == Time then [recorded]
    else if k == Description then [DescriptionText(e)]
    else []
  }

  /** The air date only when there is one, host and choreographer only when non-empty. */
  function OptionalExpected(e: Episode, air: Option<string>, k: Key): seq<string>
  {
    if k == OriginalAirDate then (if air.Some? then [air.value] else [])
    else if k == VHost then (if e.host != "" then [e.host] else [])
    else if k == VChoreographer then (if e.choreographer != "" then [e.choreographer] else [])
    else []
  }

  /** The non-blank people of each list, in list order. */
  function PeopleExpected(e: Episode, k: Key): seq<string>
  {
    if k == VDirector then Kept(e.directors)
    else if k == VGuestStar then Kept(e.guestStars)
    else if k == VWriter then Kept(e.writers)
    else if k == VExecProducer then Kept(e.executiveProducers)
    else if k == VProducer then Kept(e.producers)
    else []
  }

  /** The star rating only from one star up, the series title always, the
      series id only for a non-empty zap2it id, the tv rating only for a
      non-empty content rating, then the non-blank actors and genres. */
  function SeriesExpected(e: Episode, stars: int, k: Key): seq<string>
  {
    if k == StarRating then (if stars >= 1 then [StarText(stars)] else [])
    else if k == SeriesTitle then [e.series.title]
    else if k == SeriesId then (if e.series.zap2itId != "" then [e.series.zap2itId] else [])
    else if k == TvRating then (if e.series.contentRating != "" then [TvRatingCode(e.series.contentRating)] else [])
    else if k == VActor then Kept(e.series.actors)
    else if k == VProgramGenre then Kept(e.series.genres)
    else []
  }

  function Expected(e: Episode, recorded: string, air: Option<string>, stars: int, k: Key): seq<string>
  {
    OpeningExpected(e, recorded, k) + OptionalExpected(e, air, k) + PeopleExpected(e, k) + SeriesExpected(e, stars, k)
  }

  lemma OpeningValues(e: Episode, recorded: string, k: Key)
    ensures Values(Opening(e, recorded), k) == OpeningExpected(e, recorded, k)
  {
    var a, b := Maybe(true, IsEpisode, "true"), Maybe(true, Title, e.title);
    var c, d := Maybe(true, Time, recorded), Maybe(true, Description, DescriptionText(e));
    assert Opening(e, recorded) == a + b + c + d;
    Values4(a, b, c, d, k);
    ValuesMaybe(true, IsEpisode, "true", k);
    ValuesMaybe(true, Title, e.title, k);
    ValuesMaybe(true, Time, recorded, k);
    ValuesMaybe(true, Description, DescriptionText(e), k);
    PickFour(true, IsEpisode, "true", true, Title, e.title, true, Time, recorded, true, Description, DescriptionText(e), k);
  }

  lemma OptionalValues(e: Episode, air: Option<string>, k: Key)
    ensures Values(Optional(e, air), k) == OptionalExpected(e, air, k)
  {
    var v := if air.Some? then air.value else "";
    var a, b, c := AirDateEntries(air), Maybe(e.host != "", VHost, e.host), Maybe(e.choreographer != "", VChoreographer, e.choreographer);
    assert a == Maybe(air.Some?, OriginalAirDate, v);
    Values3(a, b, c, k);
    ValuesMaybe(air.Some?, OriginalAirDate, v, k);
    ValuesMaybe(e.host != "", VHost, e.host, k);
    ValuesMaybe(e.choreographer != "", VChoreographer, e.choreographer, k);
    PickThree(air.Some?, OriginalAirDate, v, e.host != "", VHost, e.host, e.choreographer != "", VChoreographer, e.choreographer, k);
  }

  lemma PeopleValues(e: Episode, k: Key)
    ensures Values(People(e), k) == PeopleExpected(e, k)
  {
    var a, b, c := PersonEntries(VDirector, e.directors), PersonEntries(VGuestStar, e.guestStars), PersonEntries(VWriter, e.writers);
    var d, f := PersonEntries(VExecProducer, e.executiveProducers), PersonEntries(VProducer, e.producers);
    var va, vb, vc, vd, vf := Values(a, k), Values(b, k), Values(c, k), Values(d, k), Values(f, k);
    assert Values(People(e), k) == va + vb + vc + vd + vf by {
      ValuesAppend(a, b, k);
      ValuesAppend(a + b, c, k);
      ValuesAppend(a + b + c, d, k);
      ValuesAppend(a + b + c + d, f, k);
    }
    assert va == if k == VDirector then Kept(e.directors) else [] by {
      PersonValues(VDirector, e.directors, k);
    }
    assert vb == if k == VGuestStar then Kept(e.guestStars) else [] by {
      PersonValues(VGuestStar, e.guestStars, k);
    }
    assert vc == if k == VWriter then Kept(e.writers) else [] by {
      PersonValues(VWriter, e.writers, k);
    }
    assert vd == if k == VExecProducer then Kept(e.executiveProducers) else [] by {
      PersonValues(VExecProducer, e.executiveProducers, k);
    }
    assert vf == if k == VProducer then Kept(e.producers) else [] by {
      PersonValues(VProducer, e.producers, k);
    }
    AppendEmpty<string>([]);
    AppendEmpty(va);
    AppendEmpty(vb);
    AppendEmpty(vc);
    AppendEmpty(vd);
    AppendEmpty(vf);
  }

  lemma SeriesFixedValues(e: Episode, stars: int, k: Key)
    ensures Values(SeriesFixed(e, stars), k) ==
      if k == StarRating then (if stars >= 1 then [StarText(stars)] else [])
      else if k == SeriesTitle then [e.series.title]
      else if k == SeriesId then (if e.series.zap2itId != "" then [e.series.zap2itId] else [])
      else if k == TvRating then (if e.series.contentRating != "" then [TvRatingCode(e.series.contentRating)] else [])
      else []
  {
    var a := Maybe(stars >= 1, StarRating, StarText(stars));
    var b := Maybe(true, SeriesTitle, e.series.title);
    var c := Maybe(e.series.zap2itId != "", SeriesId, e.series.zap2itId);
    var d := Maybe(e.series.contentRating != "", TvRating, TvRatingCode(e.series.contentRating));
    assert SeriesFixed(e, stars) == a + b + c + d;
    Values4(a, b, c, d, k);
    ValuesMaybe(stars >= 1, StarRating, StarText(stars), k);
    ValuesMaybe(true, SeriesTitle, e.series.title, k);
    ValuesMaybe(e.series.zap2itId != "", SeriesId, e.series.zap2itId, k);
    ValuesMaybe(e.series.contentRating != "", TvRating, TvRatingCode(e.series.contentRating), k);
    PickFour(stars >= 1, StarRating, StarText(stars), true, SeriesTitle, e.series.title,
      e.series.zap2itId != "", SeriesId, e.series.zap2itId,
      e.series.contentRating != "", TvRating, TvRatingCode(e.series.contentRating), k);
  }

  lemma SeriesValues(e: Episode, stars: int, k: Key)
    ensures Values(SeriesPart(e, stars), k) == SeriesExpected(e, stars, k)
  {
    var fixed := SeriesFixed(e, stars);
    var f, g := PersonEntries(VActor, e.series.actors), PersonEntries(VProgramGenre, e.series.genres);
    var vs, vf, vg := Values(fixed, k), Values(f, k), Values(g, k);
    assert Values(SeriesPart(e, stars), k) == vs + vf + vg by {
      ValuesAppend(fixed, f, k);
      ValuesAppend(fixed + f, g, k);
    }
    assert vs == if k == StarRating then (if stars >= 1 then [StarText(stars)] else [])
      else if k == SeriesTitle then [e.series.title]
      else if k == SeriesId then (if e.series.zap2itId != "" then [e.series.zap2itId] else [])
      else if k == TvRating then (if e.series.contentRating != "" then [TvRatingCode(e.series.contentRating)] else [])
      else [] by {
      SeriesFixedValues(e, stars, k);
    }
    assert vf == if k == VActor then Kept(e.series.actors) else [] by {
      PersonValues(VActor, e.series.actors, k);
    }
    assert vg == if k == VProgramGenre then Kept(e.series.genres) else [] by {
      PersonValues(VProgramGenre, e.series.genres, k);
    }
    AppendEmpty<string>([]);
    AppendEmpty(vs);
    AppendEmpty(vf);
    AppendEmpty(vg);
  }

  /** Under every key, the sidecar holds exactly the values Expected gives, in order. */
  lemma PyTivoValues(e: Episode, recorded: string, air: Option<string>, stars: int, k: Key)
    ensures Values(PyTivoEntries(e, recorded, air, stars), k) == Expected(e, recorded, air, stars, k)
  {
    var a, b, c, d := Opening(e, recorded), Optional(e, air), People(e), SeriesPart(e, stars);
    ValuesAppend(a, b, k);
    ValuesAppend(a + b, c, k);
    ValuesAppend(a + b + c, d, k);
    OpeningValues(e, recorded, k);
    OptionalValues(e, air, k);
    PeopleValues(e, k);
    SeriesValues(e, stars, k);
  }

  /** For instance: exactly one vDirector line per non-blank director, in
      order, and a tvRating line exactly when the series has a rating. */
  lemma PyTivoDirectorsAndRating(e: Episode, recorded: string, air: Option<string>, stars: int)
    ensures Values(PyTivoEntries(e, recorded, air, stars), VDirector) == Kept(e.directors)
    ensures Values(PyTivoEntries(e, recorded, air, stars), TvRating) ==
      if e.series.contentRating == "" then [] else [TvRatingCode(e.series.contentRating)]
  {
    PyTivoDirectors(e, recorded, air, stars);
    PyTivoRating(e, recorded, air, stars);
  }

  lemma PyTivoDirectors(e: Episode, recorded: string, air: Option<string>, stars: int)
    ensures Values(PyTivoEntries(e, recorded, air, stars), VDirector) == Kept(e.directors)
  {
    PyTivoValues(e, recorded, air, stars, VDirector);
    ExpectedDirectors(e, recorded, air, stars);
  }

  lemma ExpectedDirectors(e: Episode, recorded: string, air: Option<string>, stars: int)
    ensures Expected(e, recorded, air, stars, VDirector) == Kept(e.directors)
  {
    AppendEmpty<string>([]);
    AppendEmpty(Kept(e.directors));
  }

  lemma PyTivoRating(e: Episode, recorded: string, air: Option<string>, stars: int)
    ensures Values(PyTivoEntries(e, recorded, air, stars), TvRating) ==
      if e.series.contentRating == "" then [] else [TvRatingCode(e.series.contentRating)]
  {
    var rating := if e.series.contentRating == "" then [] else [TvRatingCode(e.series.contentRating)];
    PyTivoValues(e, recorded, air, stars, TvRating);
    ExpectedRating(e, recorded, air, stars, rating);
  }

  lemma ExpectedRating(e: Episode, recorded: string, air: Option<string>, stars: int, rating: seq<string>)
    requires rating == if e.series.contentRating == "" then [] else [TvRatingCode(e.series.contentRating)]
    ensures Expected(e, recorded, air, stars, TvRating) == rating
  {
    AppendEmpty<string>([]);
    AppendEmpty(rating);
  }

  /** The sidecar lines of a fresh Episode with no stars, for any two date texts. */
  lemma NewEpisodeRender(rec: string, air: string)
    ensures Render(PyTivoEntries(NewEpisode(), rec, Some(air), 0)) ==
      ["isEpisode : true", "title : ", Line(Time, rec), "description: #0.  ", Line(OriginalAirDate, air), "seriesTitle : "]
  {
    var e := NewEpisode();
    assert Zeros(1) == "0";
    assert DescriptionText(e) == "0.  ";
    RenderOpening(e, rec);
    assert Optional(e, Some(air)) == [Entry(OriginalAirDate, air)];
    assert People(e) == [];
    assert SeriesPart(e, 0) == [Entry(SeriesTitle, "")];
    RenderOne(Entry(OriginalAirDate, air));
    RenderOne(Entry(SeriesTitle, ""));
    RenderAppend(Opening(e, rec), Optional(e, Some(air)));
    RenderAppend(Opening(e, rec) + Optional(e, Some(air)), People(e));
    RenderAppend(Opening(e, rec) + Optional(e, Some(air)) + People(e), SeriesPart(e, 0));
    assert Line(IsEpisode, "true") == "isEpisode : true";
    assert Line(Title, "") == "title : ";
    assert Line(Description, "0.  ") == "description: #0.  ";
    assert Line(SeriesTitle, "") == "seriesTitle : ";
    assert Render(People(e)) == [];
  }
}
