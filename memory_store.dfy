/**
 * The in-memory episode and profile store (lib/db.tsx): one module-level
 * record holding the list of episodes and an optional user profile.
 * Browser persistence is not part of this model; the clock and the
 * fresh ids it draws from `Date.now()` are parameters.
 */
module MemoryStore {
  import opened Common
  import opened Types
  import Lists

  /** The message `updateEpisode` throws when no episode has the id. */
  const EpisodeNotFound: string := "Episode not found"

  /** `{ id, ...episode, createdAt: now, updatedAt: now }`. */
  function NewEpisode(id: int, d: EpisodeDraft, now: Instant): (e: Episode)
    ensures e.id == id && Content(e) == d
    ensures e.createdAt == e.updatedAt == now
  {
    Episode(id, d.title, d.description, d.url, d.thumbnail, d.tags, now, now)
  }

  /** `episodes.findIndex((ep) => ep.id === id)`: the first position holding `id`, or -1. */
  function IndexOf(episodes: seq<Episode>, id: int): (k: int)
    ensures -1 <= k < |episodes|
    ensures k == -1 <==> forall i :: 0 <= i < |episodes| ==> episodes[i].id != id
    ensures k >= 0 ==> episodes[k].id == id && forall i :: 0 <= i < k ==> episodes[i].id != id
  {
    if episodes == [] then -1
    else if episodes[0].id == id then 0
    else
      var k := IndexOf(episodes[1..], id);
      if k == -1 then -1 else k + 1
  }

  /**
   * `{ ...stored, ...episode, updatedAt: new Date() }`: the stored id and
   * creation time, every content field from the payload, a new update time.
   */
  function Revise(stored: Episode, d: EpisodeDraft, now: Instant): (e: Episode)
    ensures e.id == stored.id && e.createdAt == stored.createdAt
    ensures Content(e) == d && e.updatedAt == now
  {
    Episode(stored.id, d.title, d.description, d.url, d.thumbnail, d.tags, stored.createdAt, now)
  }

  /** `episodes.filter((ep) => ep.id !== id)`. */
  function RemoveById(episodes: seq<Episode>, id: int): (r: seq<Episode>)
    ensures forall i :: 0 <= i < |r| ==> r[i].id != id && r[i] in episodes
    ensures forall i :: 0 <= i < |episodes| && episodes[i].id != id ==> episodes[i] in r
  {
    Lists.Filter(episodes, (e: Episode) => e.id != id)
  }

  /**
   * The profile `setUserInfo` stores: the input merged over the existing
   * profile, which keeps only its id, or the input under a fresh id.
   */
  function MergeUserInfo(current: Option<UserInfo>, input: ProfileInput<bool>, freshId: int): (u: UserInfo)
    ensures WithoutId(u) == input
    ensures u.id == (if current.Some? then current.value.id else freshId)
  {
    match current
    case Some(existing) => WithId(input, existing.id)
    case None => WithId(input, freshId)
  }

  ghost predicate UniqueIds(episodes: seq<Episode>)
  {
    forall i, j :: 0 <= i < j < |episodes| ==> episodes[i].id != episodes[j].id
  }

  ghost function Ids(episodes: seq<Episode>): set<int>
  {
    set e | e in episodes :: e.id
  }

  class Store {
    var episodes: seq<Episode>
    var userInfo: Option<UserInfo>

    constructor ()
      ensures episodes == [] && userInfo == None
    {
      episodes := [];
      userInfo := None;
    }

    method GetEpisodes() returns (r: seq<Episode>)
      ensures r == episodes
    {
      r := episodes;
    }

    /** `addEpisode`: appends the new episode and returns it. */
    method AddEpisode(d: EpisodeDraft, id: int, now: Instant) returns (e: Episode)
      modifies this
      ensures e == NewEpisode(id, d, now)
      ensures episodes == old(episodes) + [e]
      ensures userInfo == old(userInfo)
    {
      e := NewEpisode(id, d, now);
      episodes := episodes + [e];
    }

    /**
     * `updateEpisode`: replaces, in place, the first episode with the id by
     * its revision; throws "Episode not found" and changes nothing when no
     * episode has that id.
     */
    method UpdateEpisode(id: int, d: EpisodeDraft, now: Instant) returns (r: Fetch<Episode>)
      modifies this
      ensures IndexOf(old(episodes), id) == -1 ==> r == Threw(EpisodeNotFound) && episodes == old(episodes)
      ensures IndexOf(old(episodes), id) >= 0 ==>
                var k := IndexOf(old(episodes), id);
                r == Fetched(Revise(old(episodes)[k], d, now)) && episodes == old(episodes)[k := r.value]
      ensures userInfo == old(userInfo)
    {
      var index := IndexOf(episodes, id);
      if index == -1 {
        return Threw(EpisodeNotFound);
      }
      var updated := Revise(episodes[index], d, now);
      episodes := episodes[index := updated];
      r := Fetched(updated);
    }

    /** `deleteEpisode`: drops every episode with the id; an absent id is not an error. */
    method DeleteEpisode(id: int)
      modifies this
      ensures episodes == RemoveById(old(episodes), id)
      ensures userInfo == old(userInfo)
    {
      episodes := RemoveById(episodes, id);
    }

    /** `getUserInfo`: the stored profile, `undefined` when there is none. */
    method GetUserInfo() returns (r: Option<UserInfo>)
      ensures r.None? <==> userInfo.None?
      ensures r == userInfo
    {
      r := userInfo;
    }

    /** `setUserInfo`: merges into the stored profile or creates it, and returns what is stored. */
    method SetUserInfo(input: ProfileInput<bool>, freshId: int) returns (u: UserInfo)
      modifies this
      ensures u == MergeUserInfo(old(userInfo), input, freshId)
      ensures userInfo == Some(u)
      ensures episodes == old(episodes)
    {
      u := MergeUserInfo(userInfo, input, freshId);
      userInfo := Some(u);
    }
  }

  /** After `addEpisode` with an id not yet in use, looking that id up finds the new episode at the end. */
  lemma AddThenFind(episodes: seq<Episode>, d: EpisodeDraft, id: int, now: Instant)
    requires id !in Ids(episodes)
    ensures IndexOf(episodes + [NewEpisode(id, d, now)], id) == |episodes|
    ensures Content((episodes + [NewEpisode(id, d, now)])[|episodes|]) == d
  {
    var s := episodes + [NewEpisode(id, d, now)];
    assert s[|episodes|].id == id;
    forall i | 0 <= i < |episodes| ensures s[i].id != id {
      assert s[i] == episodes[i] && episodes[i] in episodes;
      assert episodes[i].id in Ids(episodes);
    }
  }

  /** An episode added under a fresh id keeps the ids unique. */
  lemma AddKeepsIdsUnique(episodes: seq<Episode>, e: Episode)
    requires UniqueIds(episodes) && e.id !in Ids(episodes)
    ensures UniqueIds(episodes + [e])
  {
    var s := episodes + [e];
    forall i, j | 0 <= i < j < |s| ensures s[i].id != s[j].id {
      if j == |episodes| { assert s[i] in episodes; }
    }
  }

  /** A revision keeps the id, so `updateEpisode` keeps the ids unique. */
  lemma UpdateKeepsIdsUnique(episodes: seq<Episode>, id: int, d: EpisodeDraft, now: Instant)
    requires UniqueIds(episodes)
    requires IndexOf(episodes, id) >= 0
    ensures var k := IndexOf(episodes, id);
            UniqueIds(episodes[k := Revise(episodes[k], d, now)])
  {
  }

  /**
   * When ids are unique, `updateEpisode` revises the episode with that id
   * and leaves every episode with another id where it was.
   */
  lemma UpdateTouchesOnlyThatId(episodes: seq<Episode>, id: int, d: EpisodeDraft, now: Instant)
    requires UniqueIds(episodes)
    requires IndexOf(episodes, id) >= 0
    ensures var k := IndexOf(episodes, id);
            var after := episodes[k := Revise(episodes[k], d, now)];
            |after| == |episodes|
            && forall i :: 0 <= i < |after| ==>
                 (episodes[i].id == id ==> after[i] == Revise(episodes[i], d, now))
                 && (episodes[i].id != id ==> after[i] == episodes[i])
  {
  }

  /** After `deleteEpisode(id)` no episode has that id, and every other episode is still there. */
  lemma DeleteThenFind(episodes: seq<Episode>, id: int)
    ensures IndexOf(RemoveById(episodes, id), id) == -1
    ensures forall e :: e in episodes && e.id != id ==> e in RemoveById(episodes, id)
  {
    var r := RemoveById(episodes, id);
    forall e | e in episodes && e.id != id ensures e in r {
      var i :| 0 <= i < |episodes| && episodes[i] == e;
    }
  }

  /** Deleting an id nobody has leaves the list exactly as it was. */
  lemma DeleteAbsentIsNoOp(episodes: seq<Episode>, id: int)
    requires id !in Ids(episodes)
    ensures RemoveById(episodes, id) == episodes
  {
    Lists.FilterKeepsAll(episodes, (e: Episode) => e.id != id);
  }

  /** Deleting keeps the remaining episodes in their order: it works part by part. */
  lemma DeleteKeepsOrder(a: seq<Episode>, b: seq<Episode>, id: int)
    ensures RemoveById(a + b, id) == RemoveById(a, id) + RemoveById(b, id)
  {
    Lists.FilterAppend(a, b, (e: Episode) => e.id != id);
  }

  /** Deleting a present id from a list with unique ids removes exactly one episode. */
  lemma {:induction false} DeleteRemovesOne(episodes: seq<Episode>, id: int)
    requires UniqueIds(episodes) && id in Ids(episodes)
    ensures |RemoveById(episodes, id)| == |episodes| - 1
  {
    var s := episodes;
    if s[0].id == id {
      assert id !in Ids(s[1..]) by {
        forall e | e in s[1..] ensures e.id != id {
          var j :| 0 <= j < |s[1..]| && s[1..][j] == e;
          assert s[j + 1] == e;
        }
      }
      DeleteAbsentIsNoOp(s[1..], id);
    } else {
      assert id in Ids(s[1..]) by {
        var e :| e in s && e.id == id;
        var j :| 0 <= j < |s| && s[j] == e;
        assert j > 0 && s[1..][j - 1] == e;
      }
      DeleteRemovesOne(s[1..], id);
    }
  }

  /** Deleting keeps the ids unique. */
  lemma {:induction false} DeleteKeepsIdsUnique(episodes: seq<Episode>, id: int)
    requires UniqueIds(episodes)
    ensures UniqueIds(RemoveById(episodes, id))
  {
    if episodes != [] {
      var rest := RemoveById(episodes[1..], id);
      DeleteKeepsIdsUnique(episodes[1..], id);
      if episodes[0].id != id {
        var r := RemoveById(episodes, id);
        assert r == [episodes[0]] + rest;
        forall j | 0 <= j < |rest| ensures rest[j].id != episodes[0].id {
          var i :| 0 <= i < |episodes[1..]| && episodes[1..][i] == rest[j];
          assert episodes[i + 1] == rest[j];
        }
      }
    }
  }

  /** The profile set last is what `getUserInfo` returns: a second save keeps the first save's id. */
  lemma SetUserInfoTwice(current: Option<UserInfo>, a: ProfileInput<bool>, b: ProfileInput<bool>, id1: int, id2: int)
    ensures var first := MergeUserInfo(current, a, id1);
            var second := MergeUserInfo(Some(first), b, id2);
            second.id == first.id && WithoutId(second) == b
  {
  }
}
