/** The remote episode guide as the cache sees it (thetvdb.py is not part of
    this model): for a series it knows the episode with given numbers, the
    episode aired on a given day, and the full episode list. What it answers
    is fixed; `requests` counts the calls made to it, so that a caller's
    contract can say whether it went to the network at all. */
module Remote {
  import opened Wrappers
  import opened Metadata

  class Provider {
    const byNumber: (Series, int, int) -> Option<Episode>
    const byDate: (Series, int, int, int) -> Option<Episode>
    const fullList: Series -> seq<Episode>
    var requests: nat

    /** Every episode it hands out holds real `datetime` values, as the
        parsed XML always does. */
    ghost predicate Sound()
    {
      (forall s, n, m :: byNumber(s, n, m).Some? ==> ValidEpisode(byNumber(s, n, m).value))
      && (forall s, y, m, d :: byDate(s, y, m, d).Some? ==> ValidEpisode(byDate(s, y, m, d).value))
      && (forall s, k :: 0 <= k < |fullList(s)| ==> ValidEpisode(fullList(s)[k]))
    }

    constructor(byNumber: (Series, int, int) -> Option<Episode>,
                byDate: (Series, int, int, int) -> Option<Episode>,
                fullList: Series -> seq<Episode>)
      ensures this.byNumber == byNumber && this.byDate == byDate && this.fullList == fullList
      ensures requests == 0
    {
      this.byNumber := byNumber;
      this.byDate := byDate;
      this.fullList := fullList;
      requests := 0;
    }

    /** `get_specific_episode(series, season_number, episode_number)`. */
    method GetSpecificEpisode(series: Series, seasonNumber: int, episodeNumber: int) returns (r: Option<Episode>)
      modifies this
      ensures r == byNumber(series, seasonNumber, episodeNumber)
      ensures requests == old(requests) + 1
    {
      requests := requests + 1;
      r := byNumber(series, seasonNumber, episodeNumber);
    }

    /** `get_specific_episode_by_date(series, year, month, day)`. */
    method GetSpecificEpisodeByDate(series: Series, year: int, month: int, day: int) returns (r: Option<Episode>)
      modifies this
      ensures r == byDate(series, year, month, day)
      ensures requests == old(requests) + 1
    {
      requests := requests + 1;
      r := byDate(series, year, month, day);
    }

    /** `get_full_episode_list(series)`. */
    method GetFullEpisodeList(series: Series) returns (r: seq<Episode>)
      modifies this
      ensures r == fullList(series)
      ensures requests == old(requests) + 1
    {
      requests := requests + 1;
      r := fullList(series);
    }
  }
}
