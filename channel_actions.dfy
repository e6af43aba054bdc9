/**
 * Server actions of the channel page (app/channel/actions.ts): turning
 * the episode form into a payload, and wrapping what the episode store
 * does into success/failure results.
 */
module ChannelActions {
  import opened Common
  import opened Types
  import opened JsStrings

  /**
   * The entries of the episode form. The channel page always submits all
   * five inputs; `tags` is the raw comma-separated text.
   */
  datatype EpisodeForm = EpisodeForm(
    title: string,
    description: string,
    url: string,
    thumbnail: string,
    tags: string)

  /** The object handed to the store: episode content plus, on create, the owning channel. */
  datatype EpisodePayload = EpisodePayload(draft: EpisodeDraft, channelId: Option<int>)

  /** The channel every new episode is attached to until authentication exists. */
  const DefaultChannelId: int := 1

  /**
   * `tags.split(",").map((tag) => tag.trim())`: one tag per comma-separated
   * segment, in input order, each without surrounding whitespace.
   * Nothing is dropped: empty segments stay and duplicates stay.
   */
  function ParseTags(raw: string): (tags: seq<string>)
    ensures |tags| == Count(raw, ',') + 1
    ensures forall i :: 0 <= i < |tags| ==> ',' !in tags[i] && IsTrimmed(tags[i])
  {
    var parts := Split(raw, ',');
    var tags := seq(|parts|, i requires 0 <= i < |parts| => Trim(parts[i]));
    assert forall i :: 0 <= i < |tags| ==> ',' !in tags[i] by {
      forall i | 0 <= i < |tags| ensures ',' !in tags[i] {
        var a, b :| 0 <= a <= b <= |parts[i]| && tags[i] == parts[i][a..b];
        assert ',' !in parts[i];
      }
    }
    tags
  }

  /** Each tag is the trimmed segment at the same position. */
  lemma ParseTagsSegments(raw: string, i: nat)
    requires i < |Split(raw, ',')|
    ensures ParseTags(raw)[i] == Trim(Split(raw, ',')[i])
  {
  }

  /** An empty tag field yields one empty tag. */
  lemma ParseTagsEmpty()
    ensures ParseTags("") == [""]
  {
  }

  /** Repeated tags are kept: "a, a" parses to two tags. */
  lemma ParseTagsKeepsDuplicates()
    ensures ParseTags("a, a") == ["a", "a"]
  {
    assert Split("a", ',') == ["a"] by { SplitPlain("a", ','); }
    assert Split(" a", ',') == [" a"] by { SplitPlain(" a", ','); }
    assert Split("a, a", ',') == ["a", " a"] by { SplitAt("a", " a", ','); assert "a, a" == "a" + [','] + " a"; }
    assert Trim(" a") == "a" by { TrimDropsLeadingSpace(" ", "a"); }
  }

  /** The content both `createEpisode` and `editEpisode` build from the form. */
  function DraftFromForm(f: EpisodeForm): (d: EpisodeDraft)
    ensures d.title == f.title && d.description == f.description
    ensures d.url == f.url && d.thumbnail == f.thumbnail
    ensures d.tags == ParseTags(f.tags)
  {
    EpisodeDraft(f.title, f.description, f.url, f.thumbnail, ParseTags(f.tags))
  }

  function CreatePayload(f: EpisodeForm): (p: EpisodePayload)
    ensures p.channelId == Some(DefaultChannelId)
    ensures p.draft == DraftFromForm(f)
  {
    EpisodePayload(DraftFromForm(f), Some(DefaultChannelId))
  }

  function EditPayload(f: EpisodeForm): (p: EpisodePayload)
    ensures p.channelId == None
    ensures p.draft == DraftFromForm(f)
  {
    EpisodePayload(DraftFromForm(f), None)
  }

  /** Create and edit build the same content from the same form; only the channel differs. */
  lemma CreateEditSameContent(f: EpisodeForm)
    ensures CreatePayload(f).draft == EditPayload(f).draft
    ensures CreatePayload(f).channelId != EditPayload(f).channelId
  {
  }

  /**
   * The tags text the edit dialog is prefilled with: the stored tags
   * joined by ", ", so it is empty for no tags, starts with the first tag
   * and has two characters between each two tags.
   */
  function TagsText(tags: seq<string>): (text: string)
    ensures tags == [] ==> text == ""
    ensures |tags| == 1 ==> text == tags[0]
    ensures tags != [] ==> |text| == TotalLength(tags) + 2 * (|tags| - 1)
    ensures tags != [] ==> |tags[0]| <= |text| && text[..|tags[0]|] == tags[0]
  {
    Join(tags, ", ")
  }

  /** Tags that survive a trip through the edit form's tag field. */
  ghost predicate FormSafeTags(tags: seq<string>)
  {
    |tags| >= 1 && forall i :: 0 <= i < |tags| ==> ',' !in tags[i] && IsTrimmed(tags[i])
  }

  /**
   * Re-parsing the prefilled tag text gives the stored tags back, so
   * submitting the edit dialog untouched keeps the tags, provided they
   * are non-empty, comma-free and trimmed (which every parsed list is).
   */
  lemma {:induction false} ParseTagsText(tags: seq<string>)
    requires FormSafeTags(tags)
    ensures ParseTags(TagsText(tags)) == tags
  {
    var r := ParseTags(TagsText(tags));
    ParseTagsTextLength(tags);
    forall i | 0 <= i < |tags| ensures r[i] == tags[i] {
      ParseTagsTextAt(tags, i);
    }
  }

  /** The prefilled text parses into as many tags as were stored. */
  lemma ParseTagsTextLength(tags: seq<string>)
    requires FormSafeTags(tags)
    ensures |ParseTags(TagsText(tags))| == |tags|
  {
    SpacedSegments(tags);
  }

  /** The i-th tag parsed from the prefilled text is the i-th stored tag. */
  lemma ParseTagsTextAt(tags: seq<string>, i: nat)
    requires FormSafeTags(tags) && i < |tags|
    ensures i < |ParseTags(TagsText(tags))| && ParseTags(TagsText(tags))[i] == tags[i]
  {
    var text := TagsText(tags);
    SpacedSegments(tags);
    assert Split(text, ',')[i] == if i == 0 then tags[0] else " " + tags[i];
    ParseTagsSegments(text, i);
    TrimSpaced(tags[i], i > 0);
  }

  /** The prefilled text splits at its commas into the tags, each later one behind a space. */
  lemma SpacedSegments(tags: seq<string>)
    requires FormSafeTags(tags)
    ensures Split(TagsText(tags), ',')
         == seq(|tags|, i requires 0 <= i < |tags| => if i == 0 then tags[0] else " " + tags[i])
  {
    var spaced := seq(|tags|, i requires 0 <= i < |tags| => if i == 0 then tags[0] else " " + tags[i]);
    JoinSpaced(tags);
    forall i | 0 <= i < |spaced| ensures ',' !in spaced[i] {
      if i > 0 { assert spaced[i] == [' '] + tags[i]; }
    }
    SplitJoin(spaced, ',');
  }

  /** A trimmed tag, with or without the space the join put before it, trims to itself. */
  lemma TrimSpaced(t: string, spaced: bool)
    requires IsTrimmed(t)
    ensures Trim(if spaced then " " + t else t) == t
  {
    if spaced {
      TrimDropsLeadingSpace(" ", t);
    } else {
      TrimTrimmed(t);
    }
  }

  /** Joining with ", " is joining with "," after putting a space before every later tag. */
  lemma {:induction false} JoinSpaced(tags: seq<string>)
    requires |tags| >= 1
    ensures Join(tags, ", ")
         == Join(seq(|tags|, i requires 0 <= i < |tags| => if i == 0 then tags[0] else " " + tags[i]), ",")
  {
    var spaced := seq(|tags|, i requires 0 <= i < |tags| => if i == 0 then tags[0] else " " + tags[i]);
    if |tags| > 1 {
      var rest := tags[1..];
      JoinSpaced(rest);
      var spacedRest := seq(|rest|, i requires 0 <= i < |rest| => if i == 0 then rest[0] else " " + rest[i]);
      assert spaced[1..] == seq(|rest|, i requires 0 <= i < |rest| => " " + rest[i]);
      JoinShift(rest);
      assert Join(tags, ", ") == tags[0] + ", " + Join(rest, ", ");
      assert Join(spaced, ",") == tags[0] + "," + Join(spaced[1..], ",");
    }
  }

  /** Putting a space before every part of a ","-join is the same as a space before the join of the space-prefixed tail. */
  lemma {:induction false} JoinShift(rest: seq<string>)
    requires |rest| >= 1
    ensures " " + Join(rest, ", ")
         == Join(seq(|rest|, i requires 0 <= i < |rest| => " " + rest[i]), ",")
  {
    var sp := seq(|rest|, i requires 0 <= i < |rest| => " " + rest[i]);
    if |rest| > 1 {
      JoinShift(rest[1..]);
      assert sp[1..] == seq(|rest| - 1, i requires 0 <= i < |rest| - 1 => " " + rest[1..][i]);
    }
  }

  /** Every list the parser produces survives the edit form unchanged. */
  lemma ReparseIsStable(raw: string)
    ensures ParseTags(TagsText(ParseTags(raw))) == ParseTags(raw)
  {
    ParseTagsText(ParseTags(raw));
  }

  /** `getAllEpisodes`: the store's list, or the empty list when the store throws. */
  function GetAllEpisodes(fetched: Fetch<seq<Episode>>): (r: seq<Episode>)
    ensures fetched.Fetched? ==> r == fetched.value
    ensures fetched.Threw? ==> r == []
  {
    match fetched
    case Fetched(episodes) => episodes
    case Threw(_) => []
  }

  /**
   * `createEpisode`: builds the payload from the form, hands it to the
   * store's `addEpisode` (a parameter here) and reports what happened.
   */
  function CreateEpisode(f: EpisodeForm, addEpisode: EpisodePayload -> Fetch<Episode>): (r: ActionResult<Episode>)
    ensures r.Succeeded? <==> addEpisode(CreatePayload(f)).Fetched?
    ensures r.Succeeded? ==> r.data == addEpisode(CreatePayload(f)).value
    ensures r.Failed? ==> r.error == addEpisode(CreatePayload(f)).error
  {
    Wrap(addEpisode(CreatePayload(f)))
  }

  /** `editEpisode`: the same for the store's `updateEpisode`, which receives the id and the payload. */
  function EditEpisode(id: int, f: EpisodeForm, updateEpisode: (int, EpisodePayload) -> Fetch<Episode>): (r: ActionResult<Episode>)
    ensures r.Succeeded? <==> updateEpisode(id, EditPayload(f)).Fetched?
    ensures r.Succeeded? ==> r.data == updateEpisode(id, EditPayload(f)).value
    ensures r.Failed? ==> r.error == updateEpisode(id, EditPayload(f)).error
  {
    Wrap(updateEpisode(id, EditPayload(f)))
  }

  /** `removeEpisode`: `{ success: true }` unless the store's `deleteEpisode` throws. */
  function RemoveEpisode(deleted: Fetch<()>): (r: ActionResult<()>)
    ensures r.Succeeded? <==> deleted.Fetched?
    ensures deleted.Threw? ==> r.error == deleted.error
  {
    Wrap(deleted)
  }
}
