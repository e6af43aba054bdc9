/**
 * The channel page (app/channel/page.tsx): the episode list it shows,
 * the distinct tags, the tag filter, and the handlers that update the
 * page state after a delete or a submitted create/edit form.
 */
module ChannelPage {
  import opened Common
  import opened Types
  import Lists
  import MemoryStore

  /** `episodes.flatMap((episode) => episode.tags)`. */
  function FlatTags(episodes: seq<Episode>): (tags: seq<string>)
    ensures forall i, k :: 0 <= i < |episodes| && 0 <= k < |episodes[i].tags| ==> episodes[i].tags[k] in tags
    ensures forall t :: t in tags ==> exists i :: 0 <= i < |episodes| && t in episodes[i].tags
  {
    if episodes == [] then []
    else
      var rest := FlatTags(episodes[1..]);
      assert forall i :: 1 <= i < |episodes| ==> episodes[i] == episodes[1..][i - 1];
      episodes[0].tags + rest
  }

  /** `flatMap` keeps the episodes' order: one episode contributes its tags as they are. */
  lemma FlatTagsOfOne(e: Episode)
    ensures FlatTags([e]) == e.tags
  {
    assert [e][1..] == [];
  }

  /** `flatMap` keeps the episodes' order: the tags of a list of episodes followed by another. */
  lemma {:induction false} FlatTagsAppend(a: seq<Episode>, b: seq<Episode>)
    ensures FlatTags(a + b) == FlatTags(a) + FlatTags(b)
  {
    if a != [] {
      assert (a + b)[0] == a[0];
      assert (a + b)[1..] == a[1..] + b;
      FlatTagsAppend(a[1..], b);
      assert FlatTags(a + b) == a[0].tags + FlatTags(a[1..] + b);
      assert FlatTags(a) == a[0].tags + FlatTags(a[1..]);
    } else {
      assert a + b == b;
    }
  }

  /** `Array.from(new Set(episodes.flatMap((episode) => episode.tags)))`. */
  function DistinctTags(episodes: seq<Episode>): (tags: seq<string>)
    ensures forall i :: 0 <= i < |tags| ==> tags[i] in FlatTags(episodes)
    ensures forall i :: 0 <= i < |FlatTags(episodes)| ==> FlatTags(episodes)[i] in tags
    ensures Lists.NoDuplicates(tags)
  {
    Lists.Distinct(FlatTags(episodes))
  }

  /**
   * The distinct tags hold every tag of every episode, nothing else, each
   * once, in the order the tags were first seen.
   */
  lemma DistinctTagsSpec(episodes: seq<Episode>)
    ensures forall i, k :: 0 <= i < |episodes| && 0 <= k < |episodes[i].tags| ==> episodes[i].tags[k] in DistinctTags(episodes)
    ensures forall t :: t in DistinctTags(episodes) ==> exists i :: 0 <= i < |episodes| && t in episodes[i].tags
    ensures Lists.NoDuplicates(DistinctTags(episodes))
    ensures forall i, j :: 0 <= i < j < |DistinctTags(episodes)| ==>
              Lists.FirstIndex(FlatTags(episodes), DistinctTags(episodes)[i])
              < Lists.FirstIndex(FlatTags(episodes), DistinctTags(episodes)[j])
  {
    var flat := FlatTags(episodes);
    var d := DistinctTags(episodes);
    forall i, k | 0 <= i < |episodes| && 0 <= k < |episodes[i].tags| ensures episodes[i].tags[k] in d {
      var t := episodes[i].tags[k];
      assert t in flat;
      var m :| 0 <= m < |flat| && flat[m] == t;
    }
    forall t | t in d ensures exists i :: 0 <= i < |episodes| && t in episodes[i].tags {
      var m :| 0 <= m < |d| && d[m] == t;
      assert t in flat;
    }
    forall i, j | 0 <= i < j < |d|
      ensures Lists.FirstIndex(flat, d[i]) < Lists.FirstIndex(flat, d[j])
    {
      Lists.DistinctFirstSeenOrder(flat, i, j);
    }
  }

  /** `episode.tags.some((tag) => selectedTags.includes(tag))`. */
  predicate HasSelectedTag(e: Episode, selected: seq<string>)
    ensures HasSelectedTag(e, selected) <==> exists t :: t in selected && t in e.tags
    ensures |selected| == 0 ==> !HasSelectedTag(e, selected)
  {
    exists k :: 0 <= k < |e.tags| && e.tags[k] in selected
  }

  /** `filteredEpisodes`: every episode when no tag is selected, else those carrying a selected tag. */
  function FilteredEpisodes(episodes: seq<Episode>, selected: seq<string>): (r: seq<Episode>)
    ensures |selected| == 0 ==> r == episodes
    ensures forall i :: 0 <= i < |r| ==> r[i] in episodes && (|selected| == 0 || HasSelectedTag(r[i], selected))
    ensures forall i :: 0 <= i < |episodes| && HasSelectedTag(episodes[i], selected) ==> episodes[i] in r
  {
    if |selected| == 0 then episodes
    else Lists.Filter(episodes, (e: Episode) => HasSelectedTag(e, selected))
  }

  /**
   * With no selection the list is shown whole; otherwise an episode is
   * shown exactly when it carries a selected tag.
   */
  lemma FilteredEpisodesSpec(episodes: seq<Episode>, selected: seq<string>, e: Episode)
    ensures |selected| == 0 ==> FilteredEpisodes(episodes, selected) == episodes
    ensures e in FilteredEpisodes(episodes, selected) <==> e in episodes && (|selected| == 0 || HasSelectedTag(e, selected))
  {
    if |selected| > 0 {
      var r := FilteredEpisodes(episodes, selected);
      if e in episodes && HasSelectedTag(e, selected) {
        var i :| 0 <= i < |episodes| && episodes[i] == e;
      }
      if e in r {
        var i :| 0 <= i < |r| && r[i] == e;
      }
    }
  }

  /** Filtering keeps order: the filter of a concatenation is the concatenation of the filters. */
  lemma FilteredEpisodesKeepOrder(a: seq<Episode>, b: seq<Episode>, selected: seq<string>)
    ensures FilteredEpisodes(a + b, selected) == FilteredEpisodes(a, selected) + FilteredEpisodes(b, selected)
  {
    if |selected| > 0 {
      Lists.FilterAppend(a, b, (e: Episode) => HasSelectedTag(e, selected));
    }
  }

  /** `prev.map((ep) => ep.id === updated.id ? updated : ep)`. */
  function ReplaceById(episodes: seq<Episode>, updated: Episode): (r: seq<Episode>)
    ensures |r| == |episodes|
    ensures forall i :: 0 <= i < |r| && episodes[i].id != updated.id ==> r[i] == episodes[i]
    ensures forall i :: 0 <= i < |r| && episodes[i].id == updated.id ==> r[i] == updated
  {
    seq(|episodes|, i requires 0 <= i < |episodes| => if episodes[i].id == updated.id then updated else episodes[i])
  }

  /**
   * When the page shows the store's list and ids are unique, replacing by
   * id on the page gives the list the store's `updateEpisode` produced.
   */
  lemma ReplaceMirrorsStoreUpdate(episodes: seq<Episode>, id: int, d: EpisodeDraft, now: Instant)
    requires MemoryStore.UniqueIds(episodes)
    requires MemoryStore.IndexOf(episodes, id) >= 0
    ensures var k := MemoryStore.IndexOf(episodes, id);
            var updated := MemoryStore.Revise(episodes[k], d, now);
            ReplaceById(episodes, updated) == episodes[k := updated]
  {
  }

  /**
   * `allTags` as the submit handler recomputes it: from the list as it was
   * when the handler was created, plus the returned episode.
   */
  function SubmitTagsAsWritten(before: seq<Episode>, returned: Episode): (tags: seq<string>)
    ensures forall t :: t in tags <==> t in returned.tags || exists i :: 0 <= i < |before| && t in before[i].tags
    ensures Lists.NoDuplicates(tags)
  {
    var all := before + [returned];
    DistinctTagsSpec(all);
    assert all[|before|] == returned;
    assert forall i :: 0 <= i < |before| ==> all[i] == before[i];
    DistinctTags(all)
  }

  /** For a create the handler's recomputation is right: it is the distinct tags of the list the page shows. */
  lemma SubmitTagsAsWrittenOnCreate(before: seq<Episode>, returned: Episode)
    ensures SubmitTagsAsWritten(before, returned) == DistinctTags(AfterSubmit(before, false, returned))
  {
  }

  /**
   * For an edit it keeps the replaced version's tags: an episode tagged
   * "a" edited to carry only "b" leaves `allTags` as ["a", "b"], though no
   * episode carries "a" any more.
   */
  lemma SubmitTagsAsWrittenStaleOnEdit()
    ensures var old1 := Episode(1, "t", "", "u", "", ["a"], 0, 0);
            var new1 := Episode(1, "t", "", "u", "", ["b"], 0, 1);
            && ReplaceById([old1], new1) == [new1]
            && SubmitTagsAsWritten([old1], new1) == ["a", "b"]
            && DistinctTags(ReplaceById([old1], new1)) == ["b"]
  {
    var old1 := Episode(1, "t", "", "u", "", ["a"], 0, 0);
    var new1 := Episode(1, "t", "", "u", "", ["b"], 0, 1);
    assert ReplaceById([old1], new1) == [new1];
    assert FlatTags([new1]) == ["b"] by {
      assert [new1][1..] == [];
    }
    assert FlatTags([old1] + [new1]) == ["a", "b"] by {
      assert ([old1] + [new1])[1..] == [new1];
    }
    assert Lists.Distinct(["a", "b"]) == ["a", "b"] by {
      assert ["a", "b"][..1] == ["a"];
      assert ["a"][..0] == [];
    }
    assert Lists.Distinct(["b"]) == ["b"] by {
      assert ["b"][..0] == [];
    }
  }

  /** The episode list after a successful submit: replace by id when editing, append when creating. */
  function AfterSubmit(before: seq<Episode>, editing: bool, returned: Episode): (r: seq<Episode>)
    ensures !editing ==> r == before + [returned]
    ensures editing ==> r == ReplaceById(before, returned)
  {
    if editing then ReplaceById(before, returned) else before + [returned]
  }

  /**
   * `allTags` after a successful submit, recomputed from the list the
   * page now shows; on a create it agrees with the handler's own
   * recomputation.
   */
  function SubmitTags(before: seq<Episode>, editing: bool, returned: Episode): (tags: seq<string>)
    ensures !editing ==> tags == SubmitTagsAsWritten(before, returned)
  {
    DistinctTags(AfterSubmit(before, editing, returned))
  }

  /** After a submit, `allTags` holds exactly the tags of the episodes the page shows. */
  lemma SubmitTagsExact(before: seq<Episode>, editing: bool, returned: Episode)
    ensures var shown := AfterSubmit(before, editing, returned);
            forall t :: t in SubmitTags(before, editing, returned) <==> exists i :: 0 <= i < |shown| && t in shown[i].tags
  {
    var shown := AfterSubmit(before, editing, returned);
    DistinctTagsSpec(shown);
    forall t | exists i :: 0 <= i < |shown| && t in shown[i].tags
      ensures t in SubmitTags(before, editing, returned)
    {
      var i :| 0 <= i < |shown| && t in shown[i].tags;
      var k :| 0 <= k < |shown[i].tags| && shown[i].tags[k] == t;
    }
  }

  /**
   * The handler's recomputation never misses a tag the page shows; what it
   * gets wrong is only extra tags left over from the replaced version.
   */
  lemma SubmitTagsAsWrittenCoversShown(before: seq<Episode>, editing: bool, returned: Episode, t: string)
    requires t in SubmitTags(before, editing, returned)
    ensures t in SubmitTagsAsWritten(before, returned)
  {
    var shown := AfterSubmit(before, editing, returned);
    var all := before + [returned];
    SubmitTagsExact(before, editing, returned);
    var i :| 0 <= i < |shown| && t in shown[i].tags;
    var k :| 0 <= k < |shown[i].tags| && shown[i].tags[k] == t;
    DistinctTagsSpec(all);
    if editing && before[i].id == returned.id {
      assert shown[i] == all[|before|];
    } else {
      assert shown[i] == all[i];
    }
  }

  /** The state of the channel page. */
  class Page {
    var episodes: seq<Episode>
    var allTags: seq<string>
    var selectedTags: seq<string>
    var editing: Option<Episode>
    var isOpen: bool
    var isSubmitting: bool

    /** `allTags` lists the distinct tags of the episodes shown. */
    ghost predicate Valid()
      reads this
    {
      allTags == DistinctTags(episodes)
    }

    constructor ()
      ensures Valid()
      ensures episodes == [] && allTags == [] && selectedTags == []
      ensures editing == None && !isOpen && !isSubmitting
    {
      episodes, allTags, selectedTags := [], [], [];
      editing, isOpen, isSubmitting := None, false, false;
    }

    /** `filteredEpisodes` for the current selection. */
    function Filtered(): (r: seq<Episode>)
      reads this
      ensures |selectedTags| == 0 ==> r == episodes
      ensures forall i :: 0 <= i < |r| ==> r[i] in episodes && (|selectedTags| == 0 || HasSelectedTag(r[i], selectedTags))
      ensures forall i :: 0 <= i < |episodes| && HasSelectedTag(episodes[i], selectedTags) ==> episodes[i] in r
    {
      FilteredEpisodes(episodes, selectedTags)
    }

    /** `loadEpisodes`: show what `getAllEpisodes` returned and its distinct tags. */
    method Load(fetched: seq<Episode>)
      modifies this
      ensures Valid() && episodes == fetched
      ensures selectedTags == old(selectedTags) && editing == old(editing)
      ensures isOpen == old(isOpen) && isSubmitting == old(isSubmitting)
    {
      episodes := fetched;
      allTags := DistinctTags(fetched);
    }

    /**
     * `handleDelete(id)`: after a successful `removeEpisode`, drop every
     * episode with the id and recompute the tags; after a failure change
     * nothing.
     */
    method HandleDelete(id: int, result: ActionResult<()>)
      requires Valid()
      modifies this
      ensures Valid()
      ensures result.Succeeded? ==> episodes == MemoryStore.RemoveById(old(episodes), id)
      ensures result.Failed? ==> episodes == old(episodes) && allTags == old(allTags)
      ensures selectedTags == old(selectedTags) && editing == old(editing)
      ensures isOpen == old(isOpen) && isSubmitting == old(isSubmitting)
    {
      if result.Succeeded? {
        episodes := MemoryStore.RemoveById(episodes, id);
        allTags := DistinctTags(episodes);
      }
    }

    /** `onEdit`: open the dialog on an episode. */
    method StartEdit(e: Episode)
      modifies this
      ensures editing == Some(e) && isOpen
      ensures episodes == old(episodes) && allTags == old(allTags)
      ensures selectedTags == old(selectedTags) && isSubmitting == old(isSubmitting)
    {
      editing := Some(e);
      isOpen := true;
    }

    /**
     * The synchronous start of the form action: a submit while another is
     * in flight does nothing; otherwise the page is marked as submitting.
     */
    method BeginSubmit() returns (started: bool)
      modifies this
      ensures started == !old(isSubmitting)
      ensures isSubmitting
      ensures episodes == old(episodes) && allTags == old(allTags) && selectedTags == old(selectedTags)
      ensures editing == old(editing) && isOpen == old(isOpen)
    {
      if isSubmitting {
        return false;
      }
      isSubmitting := true;
      started := true;
    }

    /**
     * The rest of the form action, once `editEpisode` (when an episode is
     * being edited) or `createEpisode` has answered: on success, replace
     * or append the returned episode, recompute the tags, close the dialog
     * and clear the edited episode; on failure keep everything. In every
     * case the page stops submitting.
     */
    method FinishSubmit(result: ActionResult<Episode>)
      requires Valid() && isSubmitting
      modifies this
      ensures Valid() && !isSubmitting
      ensures result.Succeeded? ==>
                && episodes == AfterSubmit(old(episodes), old(editing).Some?, result.data)
                && allTags == SubmitTags(old(episodes), old(editing).Some?, result.data)
                && editing == None && !isOpen
      ensures result.Failed? ==>
                episodes == old(episodes) && allTags == old(allTags)
                && editing == old(editing) && isOpen == old(isOpen)
      ensures selectedTags == old(selectedTags)
    {
      if result.Succeeded? {
        episodes := AfterSubmit(episodes, editing.Some?, result.data);
        allTags := DistinctTags(episodes);
        isOpen := false;
        editing := None;
      }
      isSubmitting := false;
    }
  }
}
