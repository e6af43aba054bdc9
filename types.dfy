/**
 * The records the application passes around: podcast episodes and the
 * channel/user profile, as declared in app/types/.
 */
module Types {

  /** A point in time, in milliseconds (JavaScript `Date`). */
  type Instant = int

  /** A stored podcast episode (`PodcastEpisode`). */
  datatype Episode = Episode(
    id: int,
    title: string,
    description: string,
    url: string,
    thumbnail: string,
    tags: seq<string>,
    createdAt: Instant,
    updatedAt: Instant)

  /** The content of an episode: `Omit<PodcastEpisode, "id" | "createdAt" | "updatedAt">`. */
  datatype EpisodeDraft = EpisodeDraft(
    title: string,
    description: string,
    url: string,
    thumbnail: string,
    tags: seq<string>)

  function Content(e: Episode): (d: EpisodeDraft)
  {
    EpisodeDraft(e.title, e.description, e.url, e.thumbnail, e.tags)
  }

  /**
   * A channel profile. The flag is a number (`0`/`1`) in `ChannelInfo`
   * and a boolean in `UserInfo`; the type parameter carries the difference.
   */
  datatype Profile<Flag> = Profile(
    id: int,
    userName: string,
    channelName: string,
    channelDescription: string,
    logoUrl: string,
    personalWebsite: string,
    feedUrl: string,
    authorName: string,
    authorEmail: string,
    ownerName: string,
    ownerEmail: string,
    isExplicitContent: Flag,
    language: string)

  /** A profile without its storage id: `Omit<ChannelInfo, "id">`, `Omit<UserInfo, "id">`. */
  datatype ProfileInput<Flag> = ProfileInput(
    userName: string,
    channelName: string,
    channelDescription: string,
    logoUrl: string,
    personalWebsite: string,
    feedUrl: string,
    authorName: string,
    authorEmail: string,
    ownerName: string,
    ownerEmail: string,
    isExplicitContent: Flag,
    language: string)

  type ChannelInfo = Profile<int>
  type UserInfo = Profile<bool>

  function WithId<F>(p: ProfileInput<F>, id: int): (r: Profile<F>)
  {
    Profile(id, p.userName, p.channelName, p.channelDescription, p.logoUrl,
            p.personalWebsite, p.feedUrl, p.authorName, p.authorEmail,
            p.ownerName, p.ownerEmail, p.isExplicitContent, p.language)
  }

  function WithoutId<F>(p: Profile<F>): (r: ProfileInput<F>)
  {
    ProfileInput(p.userName, p.channelName, p.channelDescription, p.logoUrl,
                 p.personalWebsite, p.feedUrl, p.authorName, p.authorEmail,
                 p.ownerName, p.ownerEmail, p.isExplicitContent, p.language)
  }

  /** The names of the nine free-text profile fields, as the forms name them. */
  const TextKeys: seq<string> := [
    "channelName", "channelDescription", "logoUrl", "personalWebsite", "feedUrl",
    "authorName", "authorEmail", "ownerName", "ownerEmail"]

  /** The free-text field of a profile input named `key` (one of `TextKeys`). */
  function TextField<F>(p: ProfileInput<F>, key: string): string
  {
    if key == "channelName" then p.channelName
    else if key == "channelDescription" then p.channelDescription
    else if key == "logoUrl" then p.logoUrl
    else if key == "personalWebsite" then p.personalWebsite
    else if key == "feedUrl" then p.feedUrl
    else if key == "authorName" then p.authorName
    else if key == "authorEmail" then p.authorEmail
    else if key == "ownerName" then p.ownerName
    else if key == "ownerEmail" then p.ownerEmail
    else ""
  }
}

/** Submitted form entries, as `Object.fromEntries(formData.entries())` gives them. */
module Forms {

  type FormValues = map<string, string>

  /** `(values[key] as string) || fallback`: the entry when present and non-empty, else the fallback. */
  function TextOr(values: FormValues, key: string, fallback: string): (s: string)
    ensures key in values && values[key] != "" ==> s == values[key]
    ensures key !in values || values[key] == "" ==> s == fallback
  {
    if key in values && values[key] != "" then values[key] else fallback
  }

  /** JavaScript truthiness of the entry: present and non-empty. */
  predicate Truthy(values: FormValues, key: string)
  {
    key in values && values[key] != ""
  }
}
