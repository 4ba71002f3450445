/** file_manager.py: where an identified file goes in the library, which
    files count as media and when they are ready, the process lock, the
    recent-additions clean-up, the genre links, and the search of the
    watched-series matchers for a file. The file system is a set of paths
    with the symbolic links among them recorded by target. */
module FileManager {
  import opened Wrappers
  import opened PyStr
  import opened Metadata
  import opened Utility
  import opened Scan
  import PosixPath
  import opened TitlePattern
  import opened FilePatterns
  import opened FileMatcher
  import Db = Database
  import opened Remote

  const RecentAdditions := "_Recent Additions"
  const PyTivoMetadataExt := ".txt"

  // ---------------------------------------------------------------- library names

  /** `'_'.join` of the title's pieces split on single spaces, each stripped
      and lower-cased. */
  function TitleStem(title: string): string
  {
    Join("_", CleanPieces(Split(title, ' ')))
  }

  /** The `-s%02i_e%03i` part of a series file name. */
  function EpisodeTag(seasonNumber: nat, episodeNumber: nat): string
  {
    "-s" + FormatInt(seasonNumber, 2) + "_e" + FormatInt(episodeNumber, 3)
  }

  /** `get_series_library_file_name(file_name, episode)`: the title stem,
      the episode tag, '.', and the original extension. */
  function SeriesLibraryFileName(fileName: string, e: Episode): string
  {
    TitleStem(e.series.title) + EpisodeTag(e.seasonNumber, e.episodeNumber) + "." + SplitFileName(fileName).1
  }

  /** The library name keeps the original extension. */
  lemma SeriesNameKeepsExtension(fileName: string, e: Episode)
    ensures SplitFileName(SeriesLibraryFileName(fileName, e)).1 == SplitFileName(fileName).1
  {
    var base := TitleStem(e.series.title) + EpisodeTag(e.seasonNumber, e.episodeNumber);
    SplitFileNameOfJoin(base, SplitFileName(fileName).1);
  }

  /** The library name is read back by the episode pattern, numbers and all,
      for a title and extension without newlines whose extension has no 's'
      followed by a digit. */
  lemma SeriesNameReadsBack(fileName: string, e: Episode)
    requires '\n' !in e.series.title
    requires var ext := SplitFileName(fileName).1;
      '\n' !in ext && forall k :: 0 <= k < |ext| - 1 ==> LowerChar(ext[k]) != 's' || !IsDigit(ext[k + 1])
    ensures MatchByEpisode(SeriesLibraryFileName(fileName, e)) == Some((e.seasonNumber, e.episodeNumber))
  {
    var stem := TitleStem(e.series.title);
    var ext := SplitFileName(fileName).1;
    StemLacksNewline(e.series.title);
    FormatNatPadded(e.seasonNumber, 2);
    FormatNatPadded(e.episodeNumber, 3);
    var season, episode := FormatInt(e.seasonNumber, 2), FormatInt(e.episodeNumber, 3);
    var s := SeriesLibraryFileName(fileName, e);
    TagRegroup(stem, season, episode, ext);
    DottedExtension(ext);
    TagReadsBack(s, stem + "-", season, episode, "." + ext);
  }

  /** The library name regrouped around its `s<season>_e<episode>` tag. */
  lemma TagRegroup(stem: string, season: string, episode: string, ext: string)
    ensures stem + ("-s" + season + "_e" + episode) + "." + ext
      == (stem + "-") + ("s" + season + "_e" + episode) + ("." + ext)
  {
    var tag := "s" + season + "_e" + episode;
    assert "-s" + season + "_e" + episode == "-" + tag;
  }

  /** A '.' before an extension without newlines and without an 's' followed
      by a digit adds neither. */
  lemma DottedExtension(ext: string)
    requires '\n' !in ext && forall k :: 0 <= k < |ext| - 1 ==> LowerChar(ext[k]) != 's' || !IsDigit(ext[k + 1])
    ensures var post := "." + ext;
      && '\n' !in post && |post| >= 1 && !IsDigit(post[0])
      && forall k :: 0 <= k < |post| - 1 ==> LowerChar(post[k]) != 's' || !IsDigit(post[k + 1])
  {
    var post := "." + ext;
    forall k | 0 <= k < |post| - 1 ensures LowerChar(post[k]) != 's' || !IsDigit(post[k + 1]) {
      if k > 0 {
        assert post[k] == ext[k - 1] && post[k + 1] == ext[k];
      }
    }
  }

  /** The stem of a title without newlines has none. */
  lemma StemLacksNewline(title: string)
    requires '\n' !in title
    ensures '\n' !in TitleStem(title)
  {
    var pieces := Split(title, ' ');
    SplitPiecesIn(title, ' ');
    var clean := CleanPieces(pieces);
    forall k | 0 <= k < |clean| ensures '\n' !in clean[k] {
      StripKeepsOut(pieces[k], '\n');
    }
    JoinKeepsOut("_", clean, '\n');
  }

  /** Every piece of a split is made of characters of the string. */
  lemma {:induction false} SplitPiecesIn(s: string, sep: char)
    ensures forall k, c :: 0 <= k < |Split(s, sep)| && c in Split(s, sep)[k] ==> c in s
    decreases |s|
  {
    if s != [] {
      SplitPiecesIn(s[1..], sep);
      var rest := Split(s[1..], sep);
      var pieces := Split(s, sep);
      forall k, c | 0 <= k < |pieces| && c in pieces[k] ensures c in s {
        if s[0] == sep {
          assert k > 0 && pieces[k] == rest[k - 1];
          assert c in s[1..];
        } else if k == 0 {
          assert pieces[0] == [s[0]] + rest[0];
          if c != s[0] { assert c in rest[0]; assert c in s[1..]; }
        } else {
          assert pieces[k] == rest[k];
          assert c in s[1..];
        }
      }
    }
  }

  /** A join of pieces without c, by a separator without c, has no c. */
  lemma {:induction false} JoinKeepsOut(sep: string, parts: seq<string>, c: char)
    requires c !in sep && forall k :: 0 <= k < |parts| ==> c !in parts[k]
    ensures c !in Join(sep, parts)
    decreases |parts|
  {
    if |parts| > 1 {
      JoinKeepsOut(sep, parts[1..], c);
    }
  }

  /** A tag `s<S>_e<E>` between a newline-free prefix and a suffix that
      starts with a non-digit and has no 's' followed by a digit. */
  lemma TagReadsBack(s: string, pre: string, season: string, episode: string, post: string)
    requires s == pre + ("s" + season + "_e" + episode) + post
    requires |season| >= 1 && AllDigits(season) && |episode| >= 1 && AllDigits(episode)
    requires '\n' !in pre && '\n' !in post && |post| >= 1 && !IsDigit(post[0])
    requires forall k :: 0 <= k < |post| - 1 ==> LowerChar(post[k]) != 's' || !IsDigit(post[k + 1])
    ensures MatchByEpisode(s) == Some((DigitsValue(season), DigitsValue(episode)))
  {
    var p := |pre|;
    var b := p + 1 + |season|;
    var f := b + 2 + |episode|;
    TagLayout(s, pre, season, episode, post, p, b, f);
    TagSlices(s, pre, season, episode, post);
    TagValues(s, p, b, f, season, episode);
  }

  lemma TagValues(s: string, p: int, b: int, f: int, season: string, episode: string)
    requires 0 <= p && p + 1 < b < |s| && b + 2 < f < |s|
    requires LowerChar(s[p]) == 's' && IsEpisodeSep(s[b]) && LowerChar(s[b + 1]) == 'e' && !IsDigit(s[f])
    requires forall k :: p + 1 <= k < b ==> IsDigit(s[k])
    requires forall k :: b + 1 + 1 <= k < f ==> IsDigit(s[k])
    requires NoNewlineIn(s, 0, p) && LineEndFrom(s, f) && NoTagStartAfter(s, p)
    requires s[p + 1..b] == season && s[b + 2..f] == episode
    ensures MatchByEpisode(s) == Some((DigitsValue(season), DigitsValue(episode)))
  {
    EpisodeExtraction(s, p, b, b + 1, f);
  }

  /** Where the pieces of the tagged name sit. */
  lemma TagSlices(s: string, pre: string, season: string, episode: string, post: string)
    requires s == pre + ("s" + season + "_e" + episode) + post
    ensures var p, b := |pre|, |pre| + 1 + |season|;
      s[p + 1..b] == season && s[b + 2..b + 2 + |episode|] == episode
  {
    var tag := "s" + season + "_e" + episode;
    var p, b := |pre|, |pre| + 1 + |season|;
    assert s[p..p + |tag|] == tag;
    assert tag[1..1 + |season|] == season && tag[|season| + 3..] == episode;
  }

  lemma TagLayout(s: string, pre: string, season: string, episode: string, post: string, p: int, b: int, f: int)
    requires s == pre + ("s" + season + "_e" + episode) + post
    requires p == |pre| && b == p + 1 + |season| && f == b + 2 + |episode|
    requires |season| >= 1 && AllDigits(season) && |episode| >= 1 && AllDigits(episode)
    requires '\n' !in pre && '\n' !in post && |post| >= 1 && !IsDigit(post[0])
    requires forall k :: 0 <= k < |post| - 1 ==> LowerChar(post[k]) != 's' || !IsDigit(post[k + 1])
    ensures 0 <= p && p + 1 < b < |s| && b + 2 < f < |s|
    ensures LowerChar(s[p]) == 's' && IsEpisodeSep(s[b]) && LowerChar(s[b + 1]) == 'e' && !IsDigit(s[f])
    ensures forall k :: p + 1 <= k < b ==> IsDigit(s[k])
    ensures forall k :: b + 1 + 1 <= k < f ==> IsDigit(s[k])
    ensures NoNewlineIn(s, 0, p) && LineEndFrom(s, f) && NoTagStartAfter(s, p)
  {
    var tag := "s" + season + "_e" + episode;
    var c := b + 1;
    assert |tag| == f - p;
    forall k | p <= k < f ensures s[k] == tag[k - p] { }
    forall k | f <= k < |s| ensures s[k] == post[k - f] { }
    forall k | 0 <= k < p ensures s[k] == pre[k] { }
    assert tag[0] == 's' && tag[|season| + 1] == '_' && tag[|season| + 2] == 'e';
    forall k | p + 1 <= k < b ensures IsDigit(s[k]) { assert tag[k - p] == season[k - p - 1]; }
    forall k | c + 1 <= k < f ensures IsDigit(s[k]) { assert tag[k - p] == episode[k - c - 1]; }
    forall k | p < k < |s| - 1 ensures LowerChar(s[k]) != 's' || !IsDigit(s[k + 1]) {
      if k >= f {
        assert s[k + 1] == post[k + 1 - f];
      }
    }
  }

  /** The base of a movie's library name: title, year in parentheses,
      ` Disc<disc>` when a disc is given, and the id in brackets. */
  function MovieStem(m: Movie, disc: Option<string>): string
  {
    m.title + " (" + FormatInt(m.movieYear, 0) + ")"
      + (if disc.None? then "" else " Disc" + disc.value)
      + " [" + FormatInt(m.id, 0) + "]"
  }

  /** `get_movie_library_file_name(file_name, movie, disc)`: the stem, '.'
      and the original extension. */
  function MovieLibraryFileName(fileName: string, m: Movie, disc: Option<string>): string
  {
    MovieStem(m, disc) + "." + SplitFileName(fileName).1
  }

  /** A disc adds ` Disc<disc>` between the year and the id and nothing
      else; with or without it the name keeps the extension and splits
      back into stem and extension. */
  lemma MovieNameDisc(fileName: string, m: Movie, disc: string)
    ensures var head := m.title + " (" + FormatInt(m.movieYear, 0) + ")";
      var tail := " [" + FormatInt(m.id, 0) + "]";
      MovieStem(m, None) == head + tail && MovieStem(m, Some(disc)) == head + " Disc" + disc + tail
    ensures SplitFileName(MovieLibraryFileName(fileName, m, None)) == (MovieStem(m, None), SplitFileName(fileName).1)
    ensures SplitFileName(MovieLibraryFileName(fileName, m, Some(disc)))
         == (MovieStem(m, Some(disc)), SplitFileName(fileName).1)
  {
    var head := m.title + " (" + FormatInt(m.movieYear, 0) + ")";
    var tail := " [" + FormatInt(m.id, 0) + "]";
    assert MovieStem(m, None) == head + "" + tail;
    assert head + "" + tail == head + tail;
    SplitFileNameOfJoin(MovieStem(m, None), SplitFileName(fileName).1);
    SplitFileNameOfJoin(MovieStem(m, Some(disc)), SplitFileName(fileName).1);
  }

  /** The `Season %02i` folder name. */
  function SeasonFolder(seasonNumber: nat): string
  {
    "Season " + FormatInt(seasonNumber, 2)
  }

  /** `get_library_path(library_base_path, episode)`: base, series title,
      season folder. */
  function LibraryPath(base: string, e: Episode): string
  {
    PosixPath.Join(PosixPath.Join(base, e.series.title), SeasonFolder(e.seasonNumber))
  }

  /** Under a base that does not end in '/', a title with no '/' is one
      folder and the season folder is the last part, whose number reads
      back. */
  lemma LibraryPathParts(base: string, e: Episode)
    requires base != [] && base[|base| - 1] != '/'
    requires e.series.title != [] && '/' !in e.series.title
    ensures LibraryPath(base, e) == base + "/" + e.series.title + "/" + SeasonFolder(e.seasonNumber)
    ensures PosixPath.Split(LibraryPath(base, e)) == (base + "/" + e.series.title, SeasonFolder(e.seasonNumber))
    ensures var digits := SeasonFolder(e.seasonNumber)[7..];
      |digits| >= 2 && AllDigits(digits) && DigitsValue(digits) == e.seasonNumber
  {
    var title := e.series.title;
    PosixPath.SplitJoin(base, title);
    var dir := base + "/" + title;
    assert dir[|dir| - 1] == title[|title| - 1];
    FormatNatPadded(e.seasonNumber, 2);
    var folder := SeasonFolder(e.seasonNumber);
    assert folder[7..] == FormatInt(e.seasonNumber, 2);
    assert '/' !in folder by {
      forall k | 0 <= k < |folder| ensures folder[k] != '/' {
        if k >= 7 { assert folder[k] == FormatInt(e.seasonNumber, 2)[k - 7]; }
      }
    }
    PosixPath.SplitJoin(dir, folder);
  }

  // ---------------------------------------------------------------- media files

  /** `$` at j: the end, or just before a final newline. */
  predicate DollarAt(s: string, j: int)
  {
    j == |s| || (0 <= j == |s| - 1 && s[j] == '\n')
  }

  /** `^.*\.<ext>$` under IGNORECASE, the extension read as literal text:
      some '.' with no newline before it, then the extension, then `$`. */
  ghost predicate ExtensionMatch(name: string, ext: string)
  {
    exists i :: 0 <= i < |name| && NoNewlineIn(name, 0, i) && name[i] == '.' && LiteralAt(ext, name, i + 1)
      && DollarAt(name, i + 1 + |ext|)
  }

  /** The same test at the only places `$` can be. */
  predicate ExtensionEndsAt(name: string, ext: string, j: int)
  {
    var i := j - |ext| - 1;
    0 <= i && j <= |name| && NoNewlineIn(name, 0, i) && name[i] == '.' && LiteralAt(ext, name, i + 1)
  }

  predicate HasExtension(name: string, ext: string)
  {
    ExtensionEndsAt(name, ext, |name|) || (|name| > 0 && name[|name| - 1] == '\n' && ExtensionEndsAt(name, ext, |name| - 1))
  }

  lemma HasExtensionIff(name: string, ext: string)
    ensures HasExtension(name, ext) <==> ExtensionMatch(name, ext)
  {
    if ExtensionMatch(name, ext) {
      var i :| 0 <= i < |name| && NoNewlineIn(name, 0, i) && name[i] == '.' && LiteralAt(ext, name, i + 1)
        && DollarAt(name, i + 1 + |ext|);
      assert ExtensionEndsAt(name, ext, i + 1 + |ext|);
    }
    if ExtensionEndsAt(name, ext, |name|) {
      assert DollarAt(name, |name|);
    } else if HasExtension(name, ext) {
      assert DollarAt(name, |name| - 1);
    }
  }

  /** For a name without newlines: it ends, ignoring case, with '.' and the
      extension. */
  lemma HasExtensionPlain(name: string, ext: string)
    requires '\n' !in name
    ensures HasExtension(name, ext) <==>
      |name| >= |ext| + 1 && name[|name| - |ext| - 1] == '.'
      && Lower(name[|name| - |ext|..]) == Lower(ext)
  {
    var n := |name| - |ext|;
    if |name| >= |ext| + 1 {
      var tail := name[n..];
      assert forall k :: 0 <= k < |ext| ==> tail[k] == name[n + k];
      if LiteralAt(ext, name, n) {
        assert Lower(tail) == Lower(ext);
      }
      if Lower(tail) == Lower(ext) {
        forall k | 0 <= k < |ext| ensures LowerChar(name[n + k]) == LowerChar(ext[k]) {
          assert Lower(tail)[k] == Lower(ext)[k];
        }
      }
    }
  }

  /** Some extension of the list matches the name. */
  predicate MediaName(name: string, extensions: seq<string>)
  {
    exists k :: 0 <= k < |extensions| && HasExtension(name, extensions[k])
  }

  /** `is_media_file(file_name)`: some configured extension matches, the
      extensions tried in order. */
  method IsMediaFile(fileName: string, extensions: seq<string>) returns (r: bool)
    ensures r <==> exists k :: 0 <= k < |extensions| && ExtensionMatch(fileName, extensions[k])
    ensures r == MediaName(fileName, extensions)
  {
    for k := 0 to |extensions|
      invariant forall j :: 0 <= j < k ==> !ExtensionMatch(fileName, extensions[j])
      invariant forall j :: 0 <= j < k ==> !HasExtension(fileName, extensions[j])
    {
      HasExtensionIff(fileName, extensions[k]);
      if HasExtension(fileName, extensions[k]) {
        return true;
      }
    }
    return false;
  }

  // ---------------------------------------------------------------- timing

  /** `is_time_to_process_file`: only the within-day part of the age
      (`timedelta.seconds`) counts, in whole minutes, and must exceed the
      wait. `ageSeconds` is the time since the file's modification. */
  predicate IsTimeToProcessFile(ageSeconds: int, waitMinutes: int)
  {
    (ageSeconds % 86400) / 60 > waitMinutes
  }

  /** Within a day: ready exactly after `wait + 1` whole minutes. */
  lemma FreshnessWithinDay(ageSeconds: int, waitMinutes: int)
    requires 0 <= ageSeconds < 86400 && waitMinutes >= 0
    ensures IsTimeToProcessFile(ageSeconds, waitMinutes) <==> ageSeconds >= 60 * (waitMinutes + 1)
  {
  }

  /** Whole days do not count: a file is as fresh again a day later. */
  lemma FreshnessRepeatsDaily(ageSeconds: int, waitMinutes: int, days: int)
    ensures IsTimeToProcessFile(ageSeconds + 86400 * days, waitMinutes) == IsTimeToProcessFile(ageSeconds, waitMinutes)
  {
    assert (ageSeconds + 86400 * days) % 86400 == ageSeconds % 86400;
  }

  /** The age `cleanup_recent_folder` compares: `seconds/60 + days*24*60` of
      the `timedelta`. */
  function AgeInMinutes(ageSeconds: int): int
  {
    (ageSeconds % 86400) / 60 + (ageSeconds / 86400) * 1440
  }

  /** That is the whole age in minutes, rounded down. */
  lemma AgeInMinutesWhole(ageSeconds: int)
    ensures AgeInMinutes(ageSeconds) == ageSeconds / 60
  {
    var d, r := ageSeconds / 86400, ageSeconds % 86400;
    assert ageSeconds == 86400 * d + r;
    assert 86400 * d + r == 60 * (1440 * d + r / 60) + r % 60;
  }

  // ---------------------------------------------------------------- file system

  /** The part of the file system the program touches: the paths that exist
      (files, directories and links alike) and, for each symbolic link, the
      path it points to. */
  class FileSystem {
    var paths: set<string>
    var links: map<string, string>

    constructor(paths: set<string>, links: map<string, string>)
      ensures this.paths == paths && this.links == links
    {
      this.paths := paths;
      this.links := links;
    }
  }

  /** `get_process_lock` on the existing paths: None when the lock file is
      there; otherwise the lock file is created and its path returned. */
  function AcquireLock(paths: set<string>, lock: string): (Option<string>, set<string>)
  {
    if lock in paths then (None, paths) else (Some(lock), paths + {lock})
  }

  /** `relinquish_process_lock`: the lock file is removed if it is there. */
  function ReleaseLock(paths: set<string>, lock: string): set<string>
  {
    paths - {lock}
  }

  /** The lock file is a mutual-exclusion flag: it is held after any
      acquire, a second acquire fails, an acquire after a release succeeds,
      and no other path is touched. */
  lemma LockProtocol(paths: set<string>, lock: string)
    ensures AcquireLock(paths, lock).0.None? <==> lock in paths
    ensures lock in AcquireLock(paths, lock).1 && AcquireLock(paths, lock).1 - {lock} == paths - {lock}
    ensures AcquireLock(AcquireLock(paths, lock).1, lock).0 == None
    ensures AcquireLock(ReleaseLock(AcquireLock(paths, lock).1, lock), lock).0 == Some(lock)
    ensures lock !in ReleaseLock(paths, lock) && ReleaseLock(paths, lock) + {lock} >= paths
  {
  }

  /** The result of a clean-up: the paths removed, and whether it ran to the
      end without an error. */
  datatype Sweep = Sweep(removed: set<string>, ok: bool)

  /** The tree under the genre roots: the paths and the links. */
  datatype Tree = Tree(paths: set<string>, links: map<string, string>)

  /** `os.path.exists(p)`, which follows a link: the name is there and, when
      it is a link, so is its target. */
  predicate Exists(t: Tree, p: string)
  {
    p in t.paths && (p in t.links ==> t.links[p] in t.paths)
  }

  /** Every link is an existing path. */
  predicate LinksExist(t: Tree)
  {
    forall q :: q in t.links ==> q in t.paths
  }

  /** No link is dangling: every target is there. */
  predicate NoDangling(t: Tree)
  {
    forall q :: q in t.links ==> t.links[q] in t.paths
  }

  /** The tree after some genre steps, and whether no `os` call raised. */
  datatype Linked = Linked(tree: Tree, ok: bool)

  /** `if not os.path.exists(p): os.makedirs(p)`: `makedirs` raises when the
      name is there all the same, as a dangling link. */
  function EnsureFolder(t: Tree, p: string): (r: Linked)
    ensures r.ok <==> Exists(t, p) || p !in t.paths
    ensures r.ok ==> p in r.tree.paths && t.paths <= r.tree.paths && r.tree.links == t.links
    ensures !r.ok ==> r.tree == t
  {
    if Exists(t, p) then Linked(t, true)
    else if p in t.paths then Linked(t, false)
    else Linked(Tree(t.paths + {p}, t.links), true)
  }

  /** `if not os.path.exists(p): os.symlink(target, p)`: `symlink` raises
      when the name is there all the same, as a dangling link. */
  function LinkIfMissing(t: Tree, p: string, target: string): (r: Linked)
    ensures r.ok <==> Exists(t, p) || p !in t.paths
    ensures r.ok ==> p in r.tree.paths && t.paths <= r.tree.paths
    ensures r.ok && !Exists(t, p) ==> r.tree.links == t.links[p := target]
    ensures !r.ok ==> r.tree == t
  {
    if Exists(t, p) then Linked(t, true)
    else if p in t.paths then Linked(t, false)
    else Linked(Tree(t.paths + {p}, t.links[p := target]), true)
  }

  /** `os.symlink(target, p)` with no existence test before it: it raises
      when the name is taken at all, by a file, a folder or a link. */
  function Symlink(t: Tree, p: string, target: string): Linked
  {
    if p in t.paths then Linked(t, false)
    else Linked(Tree(t.paths + {p}, t.links[p := target]), true)
  }

  /** The name of a recent addition: the clock's `%Y-%m-%d_%H-%M-%S_` text
      followed by the library file name. */
  function RecentName(stamp: string, libraryFileName: string): string
  {
    stamp + libraryFileName
  }

  /** `add_to_recent(library_path, library_file_name)`: the recent-additions
      folder when it does not exist, a link to the library file, and in
      pyTivo format a link to its sidecar; the first call that raises ends
      it, keeping what was done before. */
  function RecentRun(t: Tree, recentPath: string, libraryPath: string, libraryFileName: string,
                     stamp: string, pyTivo: bool): Linked
  {
    var mediaPath := PosixPath.Join(libraryPath, libraryFileName);
    var recentFilePath := PosixPath.Join(recentPath, RecentName(stamp, libraryFileName));
    var folder := EnsureFolder(t, recentPath);
    if !folder.ok then folder
    else
      var media := Symlink(folder.tree, recentFilePath, mediaPath);
      if !media.ok || !pyTivo then media
      else Symlink(media.tree, recentFilePath + PyTivoMetadataExt, mediaPath + PyTivoMetadataExt)
  }

  /** `add_to_recent` succeeds exactly when the folder is not a dangling
      link and neither link name is taken (by the folder itself included);
      it then leaves the folder existing, the new link naming the library
      file and in pyTivo format the sidecar link naming its sidecar. It
      removes nothing, redirects no link and adds no other name. */
  lemma RecentRunEffect(t: Tree, recentPath: string, libraryPath: string, libraryFileName: string,
                        stamp: string, pyTivo: bool)
    requires LinksExist(t)
    ensures var r := RecentRun(t, recentPath, libraryPath, libraryFileName, stamp, pyTivo);
      var mediaPath := PosixPath.Join(libraryPath, libraryFileName);
      var recentFilePath := PosixPath.Join(recentPath, RecentName(stamp, libraryFileName));
      var taken := t.paths + {recentPath};
      && (r.ok <==> (Exists(t, recentPath) || recentPath !in t.paths) && recentFilePath !in taken
                    && (pyTivo ==> recentFilePath + PyTivoMetadataExt !in taken))
      && (r.ok ==> Exists(r.tree, recentPath) && recentFilePath in r.tree.links && r.tree.links[recentFilePath] == mediaPath)
      && (r.ok && pyTivo ==>
            recentFilePath + PyTivoMetadataExt in r.tree.links
            && r.tree.links[recentFilePath + PyTivoMetadataExt] == mediaPath + PyTivoMetadataExt)
      && LinksExist(r.tree) && t.paths <= r.tree.paths
      && r.tree.paths <= taken + {recentFilePath, recentFilePath + PyTivoMetadataExt}
      && (forall q :: q in t.links ==> q in r.tree.links && r.tree.links[q] == t.links[q])
  {
    var recentFilePath := PosixPath.Join(recentPath, RecentName(stamp, libraryFileName));
    assert |recentFilePath + PyTivoMetadataExt| > |recentFilePath|;
  }

  /** `add_to_recent` removes nothing and neither adds nor redirects a
      link on a name that was there. */
  lemma RecentRunGrows(t: Tree, recentPath: string, libraryPath: string, libraryFileName: string,
                       stamp: string, pyTivo: bool)
    ensures var r := RecentRun(t, recentPath, libraryPath, libraryFileName, stamp, pyTivo).tree;
      && t.paths <= r.paths
      && (forall q :: q in t.paths ==> (q in r.links <==> q in t.links))
      && (forall q :: q in t.paths && q in t.links ==> r.links[q] == t.links[q])
  {
  }

  /** One genre of `add_to_genres`: a genre that is not blank gets its
      folder, a link to the media file, and in pyTivo format a link to the
      sidecar, each only where the path does not exist yet; the first call
      that raises ends the step. */
  function GenreStep(t: Tree, root: string, mediaPath: string, name: string, metaPath: Option<string>, genre: string): Linked
  {
    if Strip(genre) == "" then Linked(t, true)
    else
      var genrePath := PosixPath.Join(root, genre);
      var mediaGenrePath := PosixPath.Join(genrePath, name);
      var folder := EnsureFolder(t, genrePath);
      if !folder.ok then folder
      else
        var media := LinkIfMissing(folder.tree, mediaGenrePath, mediaPath);
        if !media.ok || metaPath.None? then media
        else LinkIfMissing(media.tree, mediaGenrePath + PyTivoMetadataExt, metaPath.value)
  }

  /** The loop of `add_to_genres` over the genres, in order, stopping at the
      first step that raises. */
  function GenreLinks(t: Tree, root: string, mediaPath: string, name: string, metaPath: Option<string>, genres: seq<string>): Linked
    decreases |genres|
  {
    if genres == [] then Linked(t, true)
    else
      var prev := GenreLinks(t, root, mediaPath, name, metaPath, genres[..|genres| - 1]);
      if !prev.ok then prev
      else GenreStep(prev.tree, root, mediaPath, name, metaPath, genres[|genres| - 1])
  }

  /** `add_to_genres` once it has a root and genres: the root folder, then
      the loop. */
  function GenreRun(t: Tree, root: string, mediaPath: string, name: string, metaPath: Option<string>, genres: seq<string>): Linked
  {
    var start := EnsureFolder(t, root);
    if !start.ok then start else GenreLinks(start.tree, root, mediaPath, name, metaPath, genres)
  }

  /** After the loop, nothing was removed, no existing link was redirected,
      and every new link points at the media file or its sidecar; when no
      call raised, every genre that is not blank holds an entry for the name. */
  lemma {:induction false} GenreLinksEffect(t: Tree, root: string, mediaPath: string, name: string,
                                            metaPath: Option<string>, genres: seq<string>)
    requires LinksExist(t)
    ensures var r := GenreLinks(t, root, mediaPath, name, metaPath, genres).tree;
      && LinksExist(r) && t.paths <= r.paths
      && (forall q :: q in t.links ==> q in r.links && r.links[q] == t.links[q])
      && (forall q :: q in r.links && q !in t.links ==> r.links[q] == mediaPath || (metaPath.Some? && r.links[q] == metaPath.value))
    ensures GenreLinks(t, root, mediaPath, name, metaPath, genres).ok ==>
      forall k :: 0 <= k < |genres| && Strip(genres[k]) != "" ==>
        PosixPath.Join(PosixPath.Join(root, genres[k]), name) in GenreLinks(t, root, mediaPath, name, metaPath, genres).tree.paths
    decreases |genres|
  {
    if genres != [] {
      var init := genres[..|genres| - 1];
      GenreLinksEffect(t, root, mediaPath, name, metaPath, init);
      var prev := GenreLinks(t, root, mediaPath, name, metaPath, init);
      if prev.ok {
        GenreStepEffect(prev.tree, root, mediaPath, name, metaPath, genres[|genres| - 1]);
        forall k | 0 <= k < |genres| - 1 ensures genres[k] == init[k] { }
      }
    }
  }

  lemma GenreStepEffect(t: Tree, root: string, mediaPath: string, name: string, metaPath: Option<string>, genre: string)
    requires LinksExist(t)
    ensures var r := GenreStep(t, root, mediaPath, name, metaPath, genre);
      && LinksExist(r.tree) && t.paths <= r.tree.paths
      && (forall q :: q in t.links ==> q in r.tree.links && r.tree.links[q] == t.links[q])
      && (forall q :: q in r.tree.links && q !in t.links ==> r.tree.links[q] == mediaPath || (metaPath.Some? && r.tree.links[q] == metaPath.value))
      && (r.ok && Strip(genre) != "" ==> PosixPath.Join(PosixPath.Join(root, genre), name) in r.tree.paths)
  {
  }

  /** Once a genre step raises, the later genres change nothing. */
  lemma {:induction false} GenreLinksStopAtError(t: Tree, root: string, mediaPath: string, name: string,
                                                 metaPath: Option<string>, genres: seq<string>, k: nat)
    requires k <= |genres| && !GenreLinks(t, root, mediaPath, name, metaPath, genres[..k]).ok
    ensures GenreLinks(t, root, mediaPath, name, metaPath, genres) == GenreLinks(t, root, mediaPath, name, metaPath, genres[..k])
    decreases |genres| - k
  {
    if k < |genres| {
      var n := genres[..|genres| - 1];
      assert n[..k] == genres[..k];
      GenreLinksStopAtError(t, root, mediaPath, name, metaPath, n, k);
    } else {
      assert genres[..k] == genres;
    }
  }

  /** With no dangling link to start from and the media file and its sidecar
      there, no genre step raises and none leaves a dangling link. */
  lemma GenreStepSucceeds(t: Tree, root: string, mediaPath: string, name: string, metaPath: Option<string>, genre: string)
    requires NoDangling(t) && mediaPath in t.paths && (metaPath.Some? ==> metaPath.value in t.paths)
    ensures var r := GenreStep(t, root, mediaPath, name, metaPath, genre);
      r.ok && NoDangling(r.tree) && t.paths <= r.tree.paths
  {
  }

  lemma {:induction false} GenreLinksSucceed(t: Tree, root: string, mediaPath: string, name: string,
                                             metaPath: Option<string>, genres: seq<string>)
    requires NoDangling(t) && mediaPath in t.paths && (metaPath.Some? ==> metaPath.value in t.paths)
    ensures var r := GenreLinks(t, root, mediaPath, name, metaPath, genres);
      r.ok && NoDangling(r.tree) && t.paths <= r.tree.paths
    decreases |genres|
  {
    if genres != [] {
      var init := genres[..|genres| - 1];
      GenreLinksSucceed(t, root, mediaPath, name, metaPath, init);
      var prev := GenreLinks(t, root, mediaPath, name, metaPath, init);
      GenreStepSucceeds(prev.tree, root, mediaPath, name, metaPath, genres[|genres| - 1]);
    }
  }

  /** A dangling link where the genre's entry goes makes `os.symlink` raise,
      after nothing was changed. */
  lemma GenreStepDangling(t: Tree, root: string, mediaPath: string, name: string, metaPath: Option<string>, genre: string)
    requires Strip(genre) != "" && Exists(t, PosixPath.Join(root, genre))
    requires var entry := PosixPath.Join(PosixPath.Join(root, genre), name);
      entry in t.paths && entry in t.links && t.links[entry] !in t.paths
    ensures GenreStep(t, root, mediaPath, name, metaPath, genre) == Linked(t, false)
  {
  }

  /** `cleanup_recent_folder`'s handling of one entry of the folder, given
      the paths and links there were and the paths already removed:
      `getctime` follows the link, and raises when it dangles. */
  function SweepStep(paths: set<string>, links: map<string, string>, s: Sweep, recentPath: string, name: string,
                     ageOf: string -> int, recentMinutes: int, extensions: seq<string>, pyTivo: bool): Sweep
  {
    var here := Tree(paths - s.removed, links - s.removed);
    var full := PosixPath.Join(recentPath, name);
    if !MediaName(name, extensions) then s
    else if !Exists(here, full) then Sweep(s.removed, false)
    else if AgeInMinutes(ageOf(full)) < recentMinutes then s
    else if !pyTivo then Sweep(s.removed + {full}, true)
    else if full + PyTivoMetadataExt !in here.paths then Sweep(s.removed + {full}, false)
    else Sweep(s.removed + {full, full + PyTivoMetadataExt}, true)
  }

  /** The clean-up over the listed entries, stopping at the first error. Its
      start is `os.listdir`, which raises when the folder does not exist. */
  function SweepAll(paths: set<string>, links: map<string, string>, recentPath: string, names: seq<string>,
                    ageOf: string -> int, recentMinutes: int, extensions: seq<string>, pyTivo: bool): Sweep
    decreases |names|
  {
    if names == [] then Sweep({}, Exists(Tree(paths, links), recentPath))
    else
      var prev := SweepAll(paths, links, recentPath, names[..|names| - 1], ageOf, recentMinutes, extensions, pyTivo);
      if !prev.ok then prev
      else SweepStep(paths, links, prev, recentPath, names[|names| - 1], ageOf, recentMinutes, extensions, pyTivo)
  }

  /** The paths an entry stands for when it is an expired media file: the
      file, and its sidecar in pyTivo format. */
  function ExpiredPaths(recentPath: string, name: string, ageOf: string -> int,
                        recentMinutes: int, extensions: seq<string>, pyTivo: bool): set<string>
  {
    var full := PosixPath.Join(recentPath, name);
    if MediaName(name, extensions) && AgeInMinutes(ageOf(full)) >= recentMinutes then
      {full} + (if pyTivo then {full + PyTivoMetadataExt} else {})
    else {}
  }

  function AllExpired(recentPath: string, names: seq<string>, ageOf: string -> int,
                      recentMinutes: int, extensions: seq<string>, pyTivo: bool): set<string>
    decreases |names|
  {
    if names == [] then {}
    else
      AllExpired(recentPath, names[..|names| - 1], ageOf, recentMinutes, extensions, pyTivo)
      + ExpiredPaths(recentPath, names[|names| - 1], ageOf, recentMinutes, extensions, pyTivo)
  }

  /** Only existing paths of expired media entries and their sidecars are
      removed; when the clean-up runs to the end, all of them are. */
  lemma {:induction false} SweepRemovesExpired(paths: set<string>, links: map<string, string>, recentPath: string,
                                               names: seq<string>, ageOf: string -> int, recentMinutes: int,
                                               extensions: seq<string>, pyTivo: bool)
    ensures var s := SweepAll(paths, links, recentPath, names, ageOf, recentMinutes, extensions, pyTivo);
      && s.removed <= paths
      && s.removed <= AllExpired(recentPath, names, ageOf, recentMinutes, extensions, pyTivo)
      && (s.ok ==> s.removed == AllExpired(recentPath, names, ageOf, recentMinutes, extensions, pyTivo))
    decreases |names|
  {
    if names != [] {
      SweepRemovesExpired(paths, links, recentPath, names[..|names| - 1], ageOf, recentMinutes, extensions, pyTivo);
    }
  }

  /** Once an entry raises, the later entries change nothing. */
  lemma {:induction false} SweepStopsAtError(paths: set<string>, links: map<string, string>, recentPath: string,
                                             names: seq<string>, k: nat, ageOf: string -> int, recentMinutes: int,
                                             extensions: seq<string>, pyTivo: bool)
    requires k <= |names| && !SweepAll(paths, links, recentPath, names[..k], ageOf, recentMinutes, extensions, pyTivo).ok
    ensures SweepAll(paths, links, recentPath, names, ageOf, recentMinutes, extensions, pyTivo)
         == SweepAll(paths, links, recentPath, names[..k], ageOf, recentMinutes, extensions, pyTivo)
    decreases |names| - k
  {
    if k < |names| {
      var n := names[..|names| - 1];
      assert n[..k] == names[..k];
      SweepStopsAtError(paths, links, recentPath, n, k, ageOf, recentMinutes, extensions, pyTivo);
    } else {
      assert names[..k] == names;
    }
  }

  /** Without the recent-additions folder the listing raises and nothing is
      removed. */
  lemma SweepMissingFolder(paths: set<string>, links: map<string, string>, recentPath: string, names: seq<string>,
                           ageOf: string -> int, recentMinutes: int, extensions: seq<string>, pyTivo: bool)
    requires !Exists(Tree(paths, links), recentPath)
    ensures SweepAll(paths, links, recentPath, names, ageOf, recentMinutes, extensions, pyTivo) == Sweep({}, false)
  {
    assert names[..0] == [];
    SweepStopsAtError(paths, links, recentPath, names, 0, ageOf, recentMinutes, extensions, pyTivo);
  }

  /** A listed media entry that is a dangling link makes the clean-up raise. */
  lemma SweepDanglingRaises(paths: set<string>, links: map<string, string>, recentPath: string, names: seq<string>,
                            k: nat, ageOf: string -> int, recentMinutes: int, extensions: seq<string>, pyTivo: bool)
    requires k < |names| && MediaName(names[k], extensions)
    requires var full := PosixPath.Join(recentPath, names[k]);
      full in links && links[full] !in paths
    ensures !SweepAll(paths, links, recentPath, names, ageOf, recentMinutes, extensions, pyTivo).ok
  {
    var prefix := names[..k + 1];
    assert prefix[..k] == names[..k];
    var prev := SweepAll(paths, links, recentPath, names[..k], ageOf, recentMinutes, extensions, pyTivo);
    assert SweepAll(paths, links, recentPath, prefix, ageOf, recentMinutes, extensions, pyTivo)
        == if !prev.ok then prev
           else SweepStep(paths, links, prev, recentPath, names[k], ageOf, recentMinutes, extensions, pyTivo);
    SweepStopsAtError(paths, links, recentPath, names, k + 1, ageOf, recentMinutes, extensions, pyTivo);
  }

  // ---------------------------------------------------------------- matching

  /** Where the search of the matchers stands: its result (the candidate's
      file path and series with the episode found), the episode table, and
      the number of remote requests made so far. */
  datatype Search = Search(result: Result<Option<(string, Series, Episode)>>, episodes: seq<Db.EpisodeRow>, asked: nat)

  /** The inner loop of `match_file`: the candidates of one matcher tried in
      order, each resolved against the cache and the remote guide, stopping
      at the first that gives an episode or raises. */
  function SearchCandidates(cs: seq<Candidate>, series: seq<Db.SeriesRow>, episodes: seq<Db.EpisodeRow>,
                            asked: nat, p: Provider): Search
    requires p.Sound()
    decreases |cs|
  {
    if cs == [] then Search(Ok(None), episodes, asked)
    else
      var o := Resolve(cs[0], series, episodes, RemoteAnswer(cs[0], p));
      var n := asked + (if o.asked then 1 else 0);
      if o.result.Err? then Search(Err(o.result.error), o.episodes, n)
      else if o.result.value.Some? then Search(Ok(Some((cs[0].filePath, cs[0].series, o.result.value.value))), o.episodes, n)
      else SearchCandidates(cs[1..], series, o.episodes, n, p)
  }

  /** One step of the inner loop: the first candidate's resolution either
      ends the search or hands it on to the rest. */
  lemma SearchCandidatesHead(cs: seq<Candidate>, series: seq<Db.SeriesRow>, episodes: seq<Db.EpisodeRow>,
                             asked: nat, p: Provider, o: Outcome)
    requires p.Sound() && cs != [] && o == Resolve(cs[0], series, episodes, RemoteAnswer(cs[0], p))
    ensures var n := asked + (if o.asked then 1 else 0);
      SearchCandidates(cs, series, episodes, asked, p)
      == if o.result.Err? then Search(Err(o.result.error), o.episodes, n)
         else if o.result.value.Some? then Search(Ok(Some((cs[0].filePath, cs[0].series, o.result.value.value))), o.episodes, n)
         else SearchCandidates(cs[1..], series, o.episodes, n, p)
  {
  }

  /** The outer loop of `match_file`: the matchers in order, skipping those
      whose title the path does not match, and moving on when a matcher's
      candidates all resolve to nothing. */
  function SearchMatchers(ms: seq<FileMatcher>, path: string, series: seq<Db.SeriesRow>,
                          episodes: seq<Db.EpisodeRow>, asked: nat, p: Provider): Search
    requires p.Sound()
    decreases |ms|
  {
    if ms == [] then Search(Ok(None), episodes, asked)
    else if !MatchesSeriesTitle(ms[0].tokens, path) then SearchMatchers(ms[1..], path, series, episodes, asked, p)
    else
      var s := SearchCandidates(Candidates(ms[0].series, path), series, episodes, asked, p);
      if s.result.Err? || s.result.value.Some? then s
      else SearchMatchers(ms[1..], path, series, s.episodes, s.asked, p)
  }

  /** The two ways the outer loop goes on from a matcher. */
  lemma SearchSkips(ms: seq<FileMatcher>, path: string, series: seq<Db.SeriesRow>,
                    episodes: seq<Db.EpisodeRow>, asked: nat, p: Provider)
    requires p.Sound() && ms != [] && !MatchesSeriesTitle(ms[0].tokens, path)
    ensures SearchMatchers(ms, path, series, episodes, asked, p) == SearchMatchers(ms[1..], path, series, episodes, asked, p)
  {
  }

  lemma SearchTries(ms: seq<FileMatcher>, path: string, series: seq<Db.SeriesRow>,
                    episodes: seq<Db.EpisodeRow>, asked: nat, p: Provider, cs: seq<Candidate>)
    requires p.Sound() && ms != [] && MatchesSeriesTitle(ms[0].tokens, path) && cs == Candidates(ms[0].series, path)
    ensures var s := SearchCandidates(cs, series, episodes, asked, p);
      SearchMatchers(ms, path, series, episodes, asked, p)
      == if s.result.Err? || s.result.value.Some? then s else SearchMatchers(ms[1..], path, series, s.episodes, s.asked, p)
  {
  }

  /** A path that matches no matcher's title consults nothing and finds
      nothing. */
  lemma {:induction false} NoTitleNoSearch(ms: seq<FileMatcher>, path: string, series: seq<Db.SeriesRow>,
                                           episodes: seq<Db.EpisodeRow>, asked: nat, p: Provider)
    requires p.Sound()
    requires forall k :: 0 <= k < |ms| ==> !MatchesSeriesTitle(ms[k].tokens, path)
    ensures SearchMatchers(ms, path, series, episodes, asked, p) == Search(Ok(None), episodes, asked)
    decreases |ms|
  {
    if ms != [] {
      NoTitleNoSearch(ms[1..], path, series, episodes, asked, p);
    }
  }

  /** A candidate list found something only if one of its candidates says so. */
  lemma {:induction false} CandidateFound(cs: seq<Candidate>, series: seq<Db.SeriesRow>, episodes: seq<Db.EpisodeRow>,
                                          asked: nat, p: Provider)
    requires p.Sound()
    ensures var s := SearchCandidates(cs, series, episodes, asked, p);
      s.asked >= asked
      && (s.result.Ok? && s.result.value.Some? ==>
            exists k :: 0 <= k < |cs| && cs[k].filePath == s.result.value.value.0 && cs[k].series == s.result.value.value.1)
    decreases |cs|
  {
    if cs != [] {
      var o := Resolve(cs[0], series, episodes, RemoteAnswer(cs[0], p));
      var n := asked + (if o.asked then 1 else 0);
      SearchCandidatesHead(cs, series, episodes, asked, p, o);
      var s := SearchCandidates(cs, series, episodes, asked, p);
      if o.result.Err? {
        assert s.asked == n;
      } else if o.result.value.Some? {
        assert s.asked == n && s.result.value.value.0 == cs[0].filePath && s.result.value.value.1 == cs[0].series;
      } else {
        CandidateFound(cs[1..], series, o.episodes, n, p);
        assert s == SearchCandidates(cs[1..], series, o.episodes, n, p);
        if s.result.Ok? && s.result.value.Some? {
          CandidateInRest(cs, s.result.value.value.0, s.result.value.value.1);
        }
      }
    }
  }

  /** A candidate of the rest is a candidate of the whole list. */
  lemma CandidateInRest(cs: seq<Candidate>, path: string, series: Series)
    requires cs != []
    requires exists k :: 0 <= k < |cs[1..]| && cs[1..][k].filePath == path && cs[1..][k].series == series
    ensures exists k :: 0 <= k < |cs| && cs[k].filePath == path && cs[k].series == series
  {
    var k :| 0 <= k < |cs[1..]| && cs[1..][k].filePath == path && cs[1..][k].series == series;
    assert cs[k + 1] == cs[1..][k];
  }

  /** What `match_file` returns names a matcher whose title the path
      matches, and the series of that matcher; the remote count never goes
      down. */
  lemma {:induction false} MatchHasTitle(ms: seq<FileMatcher>, path: string, series: seq<Db.SeriesRow>,
                                         episodes: seq<Db.EpisodeRow>, asked: nat, p: Provider)
    requires p.Sound()
    ensures var s := SearchMatchers(ms, path, series, episodes, asked, p);
      s.asked >= asked
      && (s.result.Ok? && s.result.value.Some? ==>
            s.result.value.value.0 == path
            && exists k :: 0 <= k < |ms| && MatchesSeriesTitle(ms[k].tokens, path) && ms[k].series == s.result.value.value.1)
    decreases |ms|
  {
    if ms != [] {
      var s := SearchMatchers(ms, path, series, episodes, asked, p);
      if !MatchesSeriesTitle(ms[0].tokens, path) {
        SearchSkips(ms, path, series, episodes, asked, p);
        MatchHasTitle(ms[1..], path, series, episodes, asked, p);
        if s.result.Ok? && s.result.value.Some? {
          TitleInRest(ms, path, s.result.value.value.1);
        }
      } else {
        var cs := Candidates(ms[0].series, path);
        SearchTries(ms, path, series, episodes, asked, p, cs);
        var c := SearchCandidates(cs, series, episodes, asked, p);
        HeadMatcherFinds(ms, path, series, episodes, asked, p);
        if !(c.result.Err? || c.result.value.Some?) {
          MatchHasTitle(ms[1..], path, series, c.episodes, c.asked, p);
          if s.result.Ok? && s.result.value.Some? {
            TitleInRest(ms, path, s.result.value.value.1);
          }
        }
      }
    }
  }

  /** A matcher of the rest with the path's title is a matcher of the whole list. */
  lemma TitleInRest(ms: seq<FileMatcher>, path: string, found: Series)
    requires ms != []
    requires exists k :: 0 <= k < |ms[1..]| && MatchesSeriesTitle(ms[1..][k].tokens, path) && ms[1..][k].series == found
    ensures exists k :: 0 <= k < |ms| && MatchesSeriesTitle(ms[k].tokens, path) && ms[k].series == found
  {
    var k :| 0 <= k < |ms[1..]| && MatchesSeriesTitle(ms[1..][k].tokens, path) && ms[1..][k].series == found;
    assert ms[k + 1] == ms[1..][k];
  }

  /** What the first matcher's candidates find is the path with that
      matcher's series. */
  lemma HeadMatcherFinds(ms: seq<FileMatcher>, path: string, series: seq<Db.SeriesRow>,
                         episodes: seq<Db.EpisodeRow>, asked: nat, p: Provider)
    requires p.Sound() && ms != []
    ensures var c := SearchCandidates(Candidates(ms[0].series, path), series, episodes, asked, p);
      c.asked >= asked
      && (c.result.Ok? && c.result.value.Some? ==>
            c.result.value.value.0 == path && c.result.value.value.1 == ms[0].series)
  {
    var cs := Candidates(ms[0].series, path);
    CandidateFound(cs, series, episodes, asked, p);
    var c := SearchCandidates(cs, series, episodes, asked, p);
    if c.result.Ok? && c.result.value.Some? {
      var k :| 0 <= k < |cs| && cs[k].filePath == c.result.value.value.0 && cs[k].series == c.result.value.value.1;
    }
  }

  /** The matchers built for the watched series, in order. */
  function MatchersFor(watched: seq<Series>, chars: string, words: seq<string>): (r: seq<FileMatcher>)
    ensures |r| == |watched|
  {
    seq(|watched|, k requires 0 <= k < |watched| => FileMatcher(watched[k], TitleTokens(watched[k].title, chars, words)))
  }

  /** The constructor's loop appending one matcher per watched series. */
  method BuildMatchers(watched: seq<Series>, chars: string, words: seq<string>) returns (matchers: seq<FileMatcher>)
    ensures matchers == MatchersFor(watched, chars, words)
  {
    matchers := [];
    for k := 0 to |watched|
      invariant matchers == MatchersFor(watched[..k], chars, words)
    {
      var m := NewFileMatcher(watched[k], chars, words);
      matchers := matchers + [m];
    }
    assert watched[..|watched|] == watched;
  }

  // ---------------------------------------------------------------- the manager

  /** `FileManager`: the configuration it reads once, the cache, the remote
      guide and the file system it works on, and one matcher per watched
      series. */
  class FileManager {
    const db: Db.Database
    const remote: Provider
    const fs: FileSystem
    const lockFilePath: string
    const recentDurationInMinutes: int
    const recentPath: string
    const tvGenrePath: Option<string>
    const movieGenrePath: Option<string>
    const fileExtensions: seq<string>
    const format: string
    const waitFromFileCreationMinutes: int
    const fileMatchers: seq<FileMatcher>

    predicate PyTivo() { format == "pyTivo" }

    /** The constructor: the extension list is the configured text split on
        ',', and a matcher is built for each watched series in title order. */
    constructor(db: Db.Database, remote: Provider, fs: FileSystem, lockFilePath: string, recentDurationInMinutes: int,
                recentPath: string, tvGenrePath: Option<string>, movieGenrePath: Option<string>,
                mediaFileExtensions: string, format: string, waitFromFileCreationMinutes: int,
                ignoredChars: string, ignoredWords: seq<string>)
      ensures this.db == db && this.remote == remote && this.fs == fs && this.lockFilePath == lockFilePath
      ensures this.recentDurationInMinutes == recentDurationInMinutes && this.recentPath == recentPath
      ensures this.tvGenrePath == tvGenrePath && this.movieGenrePath == movieGenrePath
      ensures this.format == format && this.waitFromFileCreationMinutes == waitFromFileCreationMinutes
      ensures fileExtensions == Split(mediaFileExtensions, ',')
      ensures fileMatchers == MatchersFor(Db.WatchedSeries(db.series), ignoredChars, ignoredWords)
    {
      var watched := db.GetWatchedSeries();
      var matchers := BuildMatchers(watched, ignoredChars, ignoredWords);
      this.db := db;
      this.remote := remote;
      this.fs := fs;
      this.lockFilePath := lockFilePath;
      this.recentDurationInMinutes := recentDurationInMinutes;
      this.recentPath := recentPath;
      this.tvGenrePath := tvGenrePath;
      this.movieGenrePath := movieGenrePath;
      this.fileExtensions := Split(mediaFileExtensions, ',');
      this.format := format;
      this.waitFromFileCreationMinutes := waitFromFileCreationMinutes;
      this.fileMatchers := matchers;
    }

    /** `match_file(file_path, skip_timecheck)`, `ageSeconds` being the time
        since the file was last modified: a file too fresh is not looked at;
        otherwise the matchers are searched as SearchMatchers says. */
    method MatchFile(filePath: string, skipTimecheck: bool, ageSeconds: int)
      returns (r: Result<Option<(string, Series, Episode)>>)
      requires remote.Sound()
      modifies db, remote
      ensures !skipTimecheck && !IsTimeToProcessFile(ageSeconds, waitFromFileCreationMinutes) ==>
        r == Ok(None) && db.episodes == old(db.episodes) && remote.requests == old(remote.requests)
      ensures skipTimecheck || IsTimeToProcessFile(ageSeconds, waitFromFileCreationMinutes) ==>
        var s := SearchMatchers(fileMatchers, filePath, old(db.series), old(db.episodes), old(remote.requests), remote);
        r == s.result && db.episodes == s.episodes && remote.requests == s.asked
      ensures db.series == old(db.series) && db.movies == old(db.movies)
      ensures old(db.Valid()) ==> db.Valid()
    {
      if !skipTimecheck && !IsTimeToProcessFile(ageSeconds, waitFromFileCreationMinutes) {
        return Ok(None);
      }
      var i := 0;
      while i < |fileMatchers|
        invariant 0 <= i <= |fileMatchers|
        invariant db.series == old(db.series) && db.movies == old(db.movies)
        invariant old(db.Valid()) ==> db.Valid()
        invariant SearchMatchers(fileMatchers, filePath, old(db.series), old(db.episodes), old(remote.requests), remote)
               == SearchMatchers(fileMatchers[i..], filePath, db.series, db.episodes, remote.requests, remote)
      {
        assert fileMatchers[i..][1..] == fileMatchers[i + 1..];
        var stop, found := SearchFrom(fileMatchers[i..], filePath);
        if stop {
          return found;
        }
        i := i + 1;
      }
      return Ok(None);
    }

    /** One round of the outer loop of `match_file`: the first matcher of
        `ms` either settles the search or hands it on to the rest. */
    method SearchFrom(ms: seq<FileMatcher>, filePath: string) returns (stop: bool, r: Result<Option<(string, Series, Episode)>>)
      requires remote.Sound() && ms != []
      modifies db, remote
      ensures var s := SearchMatchers(ms, filePath, old(db.series), old(db.episodes), old(remote.requests), remote);
        if stop then s == Search(r, db.episodes, remote.requests)
        else s == SearchMatchers(ms[1..], filePath, db.series, db.episodes, remote.requests, remote)
      ensures db.series == old(db.series) && db.movies == old(db.movies)
      ensures old(db.Valid()) ==> db.Valid()
    {
      if MatchesSeriesTitle(ms[0].tokens, filePath) {
        SearchTries(ms, filePath, db.series, db.episodes, remote.requests, remote, Candidates(ms[0].series, filePath));
        r := TryMatcher(ms[0], filePath);
        stop := r.Err? || r.value.Some?;
      } else {
        SearchSkips(ms, filePath, db.series, db.episodes, remote.requests, remote);
        stop, r := false, Ok(None);
      }
    }

    /** One matcher of `match_file`: its candidates for the path, tried in
        order. */
    method TryMatcher(m: FileMatcher, filePath: string) returns (r: Result<Option<(string, Series, Episode)>>)
      requires remote.Sound()
      modifies db, remote
      ensures var s := SearchCandidates(Candidates(m.series, filePath), old(db.series), old(db.episodes), old(remote.requests), remote);
        r == s.result && db.episodes == s.episodes && remote.requests == s.asked
      ensures db.series == old(db.series) && db.movies == old(db.movies)
      ensures old(db.Valid()) ==> db.Valid()
    {
      var matches := MatchEpisode(m, filePath);
      r := TryCandidates(matches);
    }

    /** The inner loop of `match_file` over one matcher's candidates. */
    method TryCandidates(matches: seq<Candidate>) returns (r: Result<Option<(string, Series, Episode)>>)
      requires remote.Sound()
      modifies db, remote
      ensures var s := SearchCandidates(matches, old(db.series), old(db.episodes), old(remote.requests), remote);
        r == s.result && db.episodes == s.episodes && remote.requests == s.asked
      ensures db.series == old(db.series) && db.movies == old(db.movies)
      ensures old(db.Valid()) ==> db.Valid()
    {
      var j := 0;
      assert matches[j..] == matches;
      while j < |matches|
        invariant 0 <= j <= |matches|
        invariant db.series == old(db.series) && db.movies == old(db.movies)
        invariant old(db.Valid()) ==> db.Valid()
        invariant SearchCandidates(matches, old(db.series), old(db.episodes), old(remote.requests), remote)
               == SearchCandidates(matches[j..], db.series, db.episodes, remote.requests, remote)
      {
        var stop;
        stop, r := TryCandidate(matches[j..]);
        if stop {
          return;
        }
        assert matches[j..][1..] == matches[j + 1..];
        j := j + 1;
      }
      return Ok(None);
    }

    /** The body of the inner loop for the first of the remaining candidates:
        its resolution either ends the search or hands it on to the rest. */
    method TryCandidate(cs: seq<Candidate>) returns (stop: bool, r: Result<Option<(string, Series, Episode)>>)
      requires remote.Sound() && cs != []
      modifies db, remote
      ensures var s := SearchCandidates(cs, old(db.series), old(db.episodes), old(remote.requests), remote);
        if stop then s == Search(r, db.episodes, remote.requests)
        else s == SearchCandidates(cs[1..], db.series, db.episodes, remote.requests, remote)
      ensures db.series == old(db.series) && db.movies == old(db.movies)
      ensures old(db.Valid()) ==> db.Valid()
    {
      ghost var o := Resolve(cs[0], db.series, db.episodes, RemoteAnswer(cs[0], remote));
      ghost var s := SearchCandidates(cs, db.series, db.episodes, remote.requests, remote);
      ghost var n := remote.requests + (if o.asked then 1 else 0);
      SearchCandidatesHead(cs, db.series, db.episodes, remote.requests, remote, o);
      var episode := GetEpisodeMetadata(cs[0], db, remote);
      assert episode == o.result && db.episodes == o.episodes && remote.requests == n;
      if episode.Err? {
        assert s == Search(Err(episode.error), db.episodes, remote.requests);
        return true, Err(episode.error);
      }
      if episode.value.Some? {
        assert s == Search(Ok(Some((cs[0].filePath, cs[0].series, episode.value.value))), db.episodes, remote.requests);
        return true, Ok(Some((cs[0].filePath, cs[0].series, episode.value.value)));
      }
      assert s == SearchCandidates(cs[1..], db.series, db.episodes, remote.requests, remote);
      return false, Ok(None);
    }

    /** `get_process_lock`. */
    method GetProcessLock() returns (r: Option<string>)
      modifies fs
      ensures (r, fs.paths) == AcquireLock(old(fs.paths), lockFilePath)
      ensures fs.links == old(fs.links)
    {
      if lockFilePath in fs.paths {
        return None;
      }
      fs.paths := fs.paths + {lockFilePath};
      return Some(lockFilePath);
    }

    /** `relinquish_process_lock`. */
    method RelinquishProcessLock()
      modifies fs
      ensures fs.paths == ReleaseLock(old(fs.paths), lockFilePath)
      ensures fs.links == if lockFilePath in old(fs.paths) then old(fs.links) - {lockFilePath} else old(fs.links)
    {
      if lockFilePath in fs.paths {
        fs.paths := fs.paths - {lockFilePath};
        fs.links := fs.links - {lockFilePath};
      }
    }
  
    /** `cleanup_recent_folder`, given the listing of the folder and the age
        in seconds of each path: false where an `os` call would raise. */
    method CleanupRecentFolder(entries: seq<string>, ageOf: string -> int) returns (ok: bool)
      modifies fs
      ensures var s := SweepAll(old(fs.paths), old(fs.links), recentPath, entries, ageOf, recentDurationInMinutes, fileExtensions, PyTivo());
        ok == s.ok && fs.paths == old(fs.paths) - s.removed && fs.links == old(fs.links) - s.removed
    {
      ghost var paths0, links0 := fs.paths, fs.links;
      if !Exists(Tree(fs.paths, fs.links), recentPath) {
        SweepMissingFolder(paths0, links0, recentPath, entries, ageOf, recentDurationInMinutes, fileExtensions, PyTivo());
        return false;
      }
      for k := 0 to |entries|
        invariant var s := SweepAll(paths0, links0, recentPath, entries[..k], ageOf, recentDurationInMinutes, fileExtensions, PyTivo());
          s.ok && fs.paths == paths0 - s.removed && fs.links == links0 - s.removed
      {
        assert entries[..k + 1][..k] == entries[..k];
        ghost var s := SweepAll(paths0, links0, recentPath, entries[..k], ageOf, recentDurationInMinutes, fileExtensions, PyTivo());
        ok := CleanupEntry(paths0, links0, s, entries[k], ageOf);
        if !ok {
          SweepStopsAtError(paths0, links0, recentPath, entries, k + 1, ageOf, recentDurationInMinutes, fileExtensions, PyTivo());
          return false;
        }
      }
      assert entries[..|entries|] == entries;
      return true;
    }

    /** The body of the clean-up loop for one listed name. */
    method CleanupEntry(ghost paths0: set<string>, ghost links0: map<string, string>, ghost s: Sweep,
                        f: string, ageOf: string -> int) returns (ok: bool)
      requires s.ok && fs.paths == paths0 - s.removed && fs.links == links0 - s.removed
      modifies fs
      ensures var n := SweepStep(paths0, links0, s, recentPath, f, ageOf, recentDurationInMinutes, fileExtensions, PyTivo());
        ok == n.ok && fs.paths == paths0 - n.removed && fs.links == links0 - n.removed
    {
      var media := IsMediaFile(f, fileExtensions);
      if !media {
        return true;
      }
      var fullPath := PosixPath.Join(recentPath, f);
      if !Exists(Tree(fs.paths, fs.links), fullPath) {
        return false;
      }
      if AgeInMinutes(ageOf(fullPath)) < recentDurationInMinutes {
        return true;
      }
      fs.paths := fs.paths - {fullPath};
      fs.links := fs.links - {fullPath};
      assert fs.links == links0 - (s.removed + {fullPath});
      if !PyTivo() {
        return true;
      }
      var metaPath := fullPath + PyTivoMetadataExt;
      if metaPath !in fs.paths {
        return false;
      }
      fs.paths := fs.paths - {metaPath};
      fs.links := fs.links - {metaPath};
      assert fs.links == links0 - (s.removed + {fullPath, metaPath});
      return true;
    }

    /** `add_to_recent(library_path, library_file_name)`, `stamp` standing
        for the clock's text: the tree RecentRun gives, and true exactly
        when no `os` call raised. */
    method AddToRecent(libraryPath: string, libraryFileName: string, stamp: string) returns (ok: bool)
      modifies fs
      ensures Linked(Tree(fs.paths, fs.links), ok)
           == RecentRun(old(Tree(fs.paths, fs.links)), recentPath, libraryPath, libraryFileName, stamp, PyTivo())
    {
      var recentFileName := stamp + libraryFileName;
      var mediaFilePath := PosixPath.Join(libraryPath, libraryFileName);
      var recentFilePath := PosixPath.Join(recentPath, recentFileName);
      ok := EnsurePath(recentPath);
      if !ok {
        return;
      }
      if recentFilePath in fs.paths {
        return false;
      }
      fs.paths := fs.paths + {recentFilePath};
      fs.links := fs.links[recentFilePath := mediaFilePath];
      if PyTivo() {
        var recentMetaFilePath := recentFilePath + PyTivoMetadataExt;
        if recentMetaFilePath in fs.paths {
          return false;
        }
        fs.paths := fs.paths + {recentMetaFilePath};
        fs.links := fs.links[recentMetaFilePath := mediaFilePath + PyTivoMetadataExt];
      }
      return true;
    }

    /** `add_to_genres(genre_provider, genre_root_path, library_path,
        to_add_name, to_add_is_dir)`: false, touching nothing, without a
        genre root or without genres; otherwise the root is created when
        missing and every genre gets its links as GenreRun says, and an
        `os` call that raises is an error. */
    method AddToGenres(genres: Option<seq<string>>, genreRootPath: Option<string>, libraryPath: string,
                       toAddName: string, toAddIsDir: bool) returns (r: Result<bool>)
      modifies fs
      ensures genreRootPath.None? || genres.None? || |genres.value| == 0 ==>
        r == Ok(false) && fs.paths == old(fs.paths) && fs.links == old(fs.links)
      ensures genreRootPath.Some? && genres.Some? && |genres.value| > 0 ==>
        var mediaPath := PosixPath.Join(libraryPath, toAddName);
        var metaPath := if !toAddIsDir && PyTivo() then Some(mediaPath + PyTivoMetadataExt) else None;
        var g := GenreRun(old(Tree(fs.paths, fs.links)), genreRootPath.value, mediaPath, toAddName, metaPath, genres.value);
        r == (if g.ok then Ok(true) else Err("OSError")) && Tree(fs.paths, fs.links) == g.tree
    {
      if genreRootPath.None? {
        return Ok(false);
      }
      if genres.None? || |genres.value| == 0 {
        return Ok(false);
      }
      var mediaPath := PosixPath.Join(libraryPath, toAddName);
      var metaPath: Option<string> := None;
      if !toAddIsDir && PyTivo() {
        metaPath := Some(mediaPath + PyTivoMetadataExt);
      }
      var ok := AddUnderRoot(genreRootPath.value, mediaPath, toAddName, metaPath, genres.value);
      r := if ok then Ok(true) else Err("OSError");
    }

    /** The root folder, then the genre loop, as GenreRun says. */
    method AddUnderRoot(root: string, mediaPath: string, toAddName: string, metaPath: Option<string>, gs: seq<string>)
      returns (ok: bool)
      modifies fs
      ensures var g := GenreRun(old(Tree(fs.paths, fs.links)), root, mediaPath, toAddName, metaPath, gs);
        ok == g.ok && Tree(fs.paths, fs.links) == g.tree
    {
      ok := EnsurePath(root);
      if !ok {
        return;
      }
      ghost var t0 := Tree(fs.paths, fs.links);
      for k := 0 to |gs|
        invariant GenreLinks(t0, root, mediaPath, toAddName, metaPath, gs[..k]) == Linked(Tree(fs.paths, fs.links), true)
      {
        assert gs[..k + 1][..k] == gs[..k];
        ok := AddGenre(root, mediaPath, toAddName, metaPath, gs[k]);
        if !ok {
          GenreLinksStopAtError(t0, root, mediaPath, toAddName, metaPath, gs, k + 1);
          return;
        }
      }
      assert gs[..|gs|] == gs;
    }

    /** `os.makedirs` of a path that does not exist; false, touching
        nothing, when the name is a dangling link. */
    method EnsurePath(p: string) returns (ok: bool)
      modifies fs
      ensures var e := EnsureFolder(old(Tree(fs.paths, fs.links)), p);
        ok == e.ok && Tree(fs.paths, fs.links) == e.tree
    {
      if Exists(Tree(fs.paths, fs.links), p) {
        return true;
      }
      if p in fs.paths {
        return false;
      }
      fs.paths := fs.paths + {p};
      return true;
    }

    /** `os.symlink(target, p)` where `p` does not exist; false, touching
        nothing, when the name is a dangling link. */
    method EnsureLink(p: string, target: string) returns (ok: bool)
      modifies fs
      ensures var e := LinkIfMissing(old(Tree(fs.paths, fs.links)), p, target);
        ok == e.ok && Tree(fs.paths, fs.links) == e.tree
    {
      if Exists(Tree(fs.paths, fs.links), p) {
        return true;
      }
      if p in fs.paths {
        return false;
      }
      fs.paths := fs.paths + {p};
      fs.links := fs.links[p := target];
      return true;
    }

    /** The body of the genre loop for one genre. */
    method AddGenre(root: string, mediaPath: string, toAddName: string, metaPath: Option<string>, genre: string)
      returns (ok: bool)
      modifies fs
      ensures var g := GenreStep(old(Tree(fs.paths, fs.links)), root, mediaPath, toAddName, metaPath, genre);
        ok == g.ok && Tree(fs.paths, fs.links) == g.tree
    {
      if Strip(genre) == "" {
        return true;
      }
      var genrePath := PosixPath.Join(root, genre);
      var mediaGenrePath := PosixPath.Join(genrePath, toAddName);
      ok := EnsurePath(genrePath);
      if !ok {
        return;
      }
      ok := EnsureLink(mediaGenrePath, mediaPath);
      if !ok || metaPath.None? {
        return;
      }
      ok := EnsureLink(mediaGenrePath + PyTivoMetadataExt, metaPath.value);
    }
  }
}
