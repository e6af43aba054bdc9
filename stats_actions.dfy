/**
 * Server actions of the statistics page (app/stats/actions.ts). The
 * store's `getEpisodes`, `getTagStatistics` and `getEpisodesByTag` are
 * not part of this model; their outcomes are parameters.
 */
module StatsActions {
  import opened Common
  import opened Types

  /** One entry of the tag statistics: a tag and how many episodes carry it. */
  datatype TagCount = TagCount(name: string, count: int)

  /** A bar of the tag chart: the tag, its count and its colour. */
  datatype TagStat = TagStat(name: string, count: int, fill: string)

  const DefaultFill: string := "#8884d8"

  datatype StatsData = StatsData(episodes: seq<Episode>, tagStats: seq<TagStat>)

  /** `tagStats.map((stat) => ({ ...stat, fill: "#8884d8" }))`. */
  function WithDefaultFill(counts: seq<TagCount>): (r: seq<TagStat>)
    ensures |r| == |counts|
    ensures forall i :: 0 <= i < |r| ==> r[i].name == counts[i].name && r[i].count == counts[i].count
    ensures forall i :: 0 <= i < |r| ==> r[i].fill == DefaultFill
  {
    seq(|counts|, i requires 0 <= i < |counts| => TagStat(counts[i].name, counts[i].count, DefaultFill))
  }

  /**
   * `getStatsData`: the episodes unchanged and the statistics coloured
   * with the default fill; both empty when either fetch throws.
   */
  function GetStatsData(episodes: Fetch<seq<Episode>>, counts: Fetch<seq<TagCount>>): (d: StatsData)
    ensures episodes.Fetched? && counts.Fetched? ==>
              d.episodes == episodes.value && d.tagStats == WithDefaultFill(counts.value)
    ensures episodes.Threw? || counts.Threw? ==> d.episodes == [] && d.tagStats == []
    ensures forall i :: 0 <= i < |d.tagStats| ==> d.tagStats[i].fill == DefaultFill
  {
    if episodes.Fetched? && counts.Fetched? then
      StatsData(episodes.value, WithDefaultFill(counts.value))
    else
      StatsData([], [])
  }

  /**
   * `getFilteredEpisodes(tag)`: what the store's `getEpisodesByTag` returns
   * for that tag, or the empty list when it throws.
   */
  function GetFilteredEpisodes(tag: string, getEpisodesByTag: string -> Fetch<seq<Episode>>): (r: seq<Episode>)
    ensures getEpisodesByTag(tag).Fetched? ==> r == getEpisodesByTag(tag).value
    ensures getEpisodesByTag(tag).Threw? ==> r == []
  {
    match getEpisodesByTag(tag)
    case Fetched(episodes) => episodes
    case Threw(_) => []
  }
}
