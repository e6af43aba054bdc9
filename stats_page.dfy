/**
 * The statistics page (app/stats/page.tsx): the tag chart whose bars are
 * recoloured as a tag is selected or deselected, and the list of
 * episodes carrying the selected tag.
 */
module StatsPage {
  import opened Common
  import opened Types
  import opened StatsActions

  /** The colour of the selected tag's bar. */
  const SelectedFill: string := "#6D28D9"

  /** `prev.map((tag) => ({ ...tag, fill: "#8884d8" }))`. */
  function ResetFills(stats: seq<TagStat>): (r: seq<TagStat>)
    ensures |r| == |stats|
    ensures forall i :: 0 <= i < |r| ==> r[i] == stats[i].(fill := DefaultFill)
  {
    seq(|stats|, i requires 0 <= i < |stats| => stats[i].(fill := DefaultFill))
  }

  /** `prev.map((tag) => ({ ...tag, fill: tag.name === clicked ? "#6D28D9" : "#8884d8" }))`. */
  function Highlight(stats: seq<TagStat>, clicked: string): (r: seq<TagStat>)
    ensures |r| == |stats|
    ensures forall i :: 0 <= i < |r| ==> r[i] == stats[i].(fill := if stats[i].name == clicked then SelectedFill else DefaultFill)
  {
    seq(|stats|, i requires 0 <= i < |stats| =>
      stats[i].(fill := if stats[i].name == clicked then SelectedFill else DefaultFill))
  }

  /** The bars without their colours: what the chart counts. */
  function Counts(stats: seq<TagStat>): (r: seq<TagCount>)
    ensures |r| == |stats|
    ensures forall i :: 0 <= i < |r| ==> r[i].name == stats[i].name && r[i].count == stats[i].count
  {
    seq(|stats|, i requires 0 <= i < |stats| => TagCount(stats[i].name, stats[i].count))
  }

  /** Recolouring never changes a bar's tag, its count, or the order and number of bars. */
  lemma RecolourKeepsCounts(stats: seq<TagStat>, clicked: string)
    ensures Counts(ResetFills(stats)) == Counts(stats)
    ensures Counts(Highlight(stats, clicked)) == Counts(stats)
  {
  }

  /** Each bar has the selected colour exactly when its tag is the selected one. */
  ghost predicate FillsShow(stats: seq<TagStat>, selected: Option<string>)
  {
    forall i :: 0 <= i < |stats| ==>
      stats[i].fill == (if selected == Some(stats[i].name) then SelectedFill else DefaultFill)
  }

  /** The part of the page state that a click on a bar or "Clear Filter" changes. */
  datatype Selection = Selection(tagStats: seq<TagStat>, selectedTag: Option<string>, filteredEpisodes: seq<Episode>)

  /**
   * `handleClick`: a click on the selected tag deselects it; a click on
   * another tag selects it once the server action `getFilteredEpisodes`
   * answers, and changes nothing when the call to that action itself
   * throws. A store failure never arrives here as a throw: the action
   * catches it and answers with the empty list.
   */
  function Click(s: Selection, clicked: string, fetched: Fetch<seq<Episode>>): (r: Selection)
    ensures s.selectedTag == Some(clicked) ==> r == Selection(ResetFills(s.tagStats), None, [])
    ensures s.selectedTag != Some(clicked) && fetched.Fetched? ==>
              r == Selection(Highlight(s.tagStats, clicked), Some(clicked), fetched.value)
    ensures s.selectedTag != Some(clicked) && fetched.Threw? ==> r == s
  {
    if s.selectedTag == Some(clicked) then Selection(ResetFills(s.tagStats), None, [])
    else match fetched
      case Fetched(filtered) => Selection(Highlight(s.tagStats, clicked), Some(clicked), filtered)
      case Threw(_) => s
  }

  /**
   * When the store fails, the page still selects and highlights the tag,
   * with no episodes; the filter section and its "Clear Filter" button
   * stay hidden, so only a second click on the bar deselects it.
   */
  lemma ClickAfterStoreFailure(s: Selection, tag: string, getEpisodesByTag: string -> Fetch<seq<Episode>>)
    requires s.selectedTag != Some(tag)
    requires getEpisodesByTag(tag).Threw?
    ensures var r := Click(s, tag, Fetched(GetFilteredEpisodes(tag, getEpisodesByTag)));
            && r.selectedTag == Some(tag)
            && r.filteredEpisodes == []
            && r.tagStats == Highlight(s.tagStats, tag)
            && !ShowsFilter(r)
            && Click(r, tag, Fetched([])) == Clear(s)
  {
    var r := Click(s, tag, Fetched(GetFilteredEpisodes(tag, getEpisodesByTag)));
    assert ResetFills(r.tagStats) == ResetFills(s.tagStats);
  }

  /** `clearFilter`. */
  function Clear(s: Selection): (r: Selection)
    ensures r.selectedTag.None? && r.filteredEpisodes == []
    ensures FillsShow(r.tagStats, r.selectedTag)
  {
    Selection(ResetFills(s.tagStats), None, [])
  }

  /** "Clear Filter" does exactly what clicking the selected tag again does. */
  lemma ClearIsDeselect(s: Selection, fetched: Fetch<seq<Episode>>)
    requires s.selectedTag.Some?
    ensures Clear(s) == Click(s, s.selectedTag.value, fetched)
  {
  }

  /** Clicking a tag and then clicking it again ends with no selection and default colours. */
  lemma ClickTwiceDeselects(s: Selection, clicked: string, filtered: seq<Episode>, again: Fetch<seq<Episode>>)
    requires s.selectedTag != Some(clicked)
    ensures Click(Click(s, clicked, Fetched(filtered)), clicked, again) == Clear(s)
  {
    var h := Highlight(s.tagStats, clicked);
    assert ResetFills(h) == ResetFills(s.tagStats);
  }

  /** Every click and every clear keeps the colours in step with the selection. */
  lemma ClickKeepsFillsShow(s: Selection, clicked: string, fetched: Fetch<seq<Episode>>)
    requires FillsShow(s.tagStats, s.selectedTag)
    ensures var r := Click(s, clicked, fetched);
            FillsShow(r.tagStats, r.selectedTag)
  {
  }

  /**
   * With the tags of the chart distinct, a successful selection colours
   * exactly one bar: the selected tag's, if the chart has it.
   */
  lemma SelectionColoursOneBar(s: Selection, clicked: string, filtered: seq<Episode>, i: nat)
    requires s.selectedTag != Some(clicked)
    requires forall a, b :: 0 <= a < b < |s.tagStats| ==> s.tagStats[a].name != s.tagStats[b].name
    requires i < |s.tagStats| && s.tagStats[i].name == clicked
    ensures var r := Click(s, clicked, Fetched(filtered));
            r.tagStats[i].fill == SelectedFill
            && forall j :: 0 <= j < |r.tagStats| && j != i ==> r.tagStats[j].fill == DefaultFill
  {
  }

  /**
   * `selectedTag && filteredEpisodes.length > 0`: when the "Clear Filter"
   * button and the filtered list are shown. An empty tag name is falsy,
   * so selecting the empty tag shows neither.
   */
  predicate ShowsFilter(s: Selection)
    ensures s.selectedTag.None? ==> !ShowsFilter(s)
    ensures s.selectedTag == Some("") ==> !ShowsFilter(s)
    ensures |s.filteredEpisodes| == 0 ==> !ShowsFilter(s)
  {
    s.selectedTag.Some? && s.selectedTag.value != "" && |s.filteredEpisodes| > 0
  }

  /** The filtered section shows only after a successful click on a non-empty tag that found episodes. */
  lemma ShowsFilterOnlyAfterSelecting(s: Selection, clicked: string, fetched: Fetch<seq<Episode>>)
    ensures ShowsFilter(Click(s, clicked, fetched)) ==>
              (s.selectedTag != Some(clicked) && fetched.Fetched? && clicked != "" && |fetched.value| > 0)
              || (s.selectedTag != Some(clicked) && fetched.Threw? && ShowsFilter(s))
    ensures !ShowsFilter(Clear(s))
  {
  }

  /** The state of the statistics page. */
  class Page {
    var episodes: seq<Episode>
    var tagStats: seq<TagStat>
    var selectedTag: Option<string>
    var filteredEpisodes: seq<Episode>
    var isLoading: bool

    function Current(): (s: Selection)
      reads this
    {
      Selection(tagStats, selectedTag, filteredEpisodes)
    }

    /** Bar colours follow the selection; nothing is selected before the data is loaded. */
    ghost predicate Valid()
      reads this
    {
      && FillsShow(tagStats, selectedTag)
      && (isLoading ==> selectedTag.None? && filteredEpisodes == [])
    }

    constructor ()
      ensures Valid() && isLoading
      ensures episodes == [] && tagStats == [] && selectedTag.None? && filteredEpisodes == []
    {
      episodes, tagStats, filteredEpisodes := [], [], [];
      selectedTag := None;
      isLoading := true;
    }

    /** `loadStats`, run once when the page mounts: show what `getStatsData` returns. */
    method Load(fetchedEpisodes: Fetch<seq<Episode>>, fetchedCounts: Fetch<seq<TagCount>>)
      requires Valid() && isLoading
      modifies this
      ensures Valid() && !isLoading
      ensures var d := GetStatsData(fetchedEpisodes, fetchedCounts);
              episodes == d.episodes && tagStats == d.tagStats
      ensures selectedTag.None? && filteredEpisodes == []
    {
      var d := GetStatsData(fetchedEpisodes, fetchedCounts);
      episodes := d.episodes;
      tagStats := d.tagStats;
      isLoading := false;
    }

    /** `handleClick` on the bar of `clicked`; the chart is only shown once loaded. */
    method HandleClick(clicked: string, fetched: Fetch<seq<Episode>>)
      requires Valid() && !isLoading
      modifies this
      ensures Valid() && !isLoading
      ensures Current() == Click(old(Current()), clicked, fetched)
      ensures episodes == old(episodes)
    {
      if selectedTag == Some(clicked) {
        tagStats := ResetFills(tagStats);
        selectedTag := None;
        filteredEpisodes := [];
      } else {
        match fetched {
          case Fetched(filtered) =>
            filteredEpisodes := filtered;
            tagStats := Highlight(tagStats, clicked);
            selectedTag := Some(clicked);
          case Threw(_) =>
        }
      }
    }

    /** `clearFilter`. */
    method ClearFilter()
      requires Valid()
      modifies this
      ensures Valid()
      ensures Current() == Clear(old(Current()))
      ensures episodes == old(episodes) && isLoading == old(isLoading)
    {
      selectedTag := None;
      filteredEpisodes := [];
      tagStats := ResetFills(tagStats);
    }
  }
}
