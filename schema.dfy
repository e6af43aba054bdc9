/**
 * The relational schema (lib/db/schema.ts): the `channel_info` and
 * `episodes` tables, their not-null, unique and foreign-key constraints,
 * and the values an insert fills in for the columns it leaves out.
 *
 * `channel_info` is kept as a map from `user_name` to its row, which is
 * how the unique constraint on that column is used; `episodes` is a list
 * of rows. Both tables draw ids from an auto-increment counter.
 */
module Schema {
  import opened Common

  /** A column an insert either leaves out (so its default applies) or gives a value. */
  datatype Supplied<T> = Omitted | Given(value: T)

  function ValueOr<T>(s: Supplied<T>, default: T): (v: T)
    ensures s.Given? ==> v == s.value
    ensures s.Omitted? ==> v == default
  {
    match s
    case Given(v) => v
    case Omitted => default
  }

  /** A `channel_info` row: `user_name` and `is_explicit_content` are not null. */
  datatype ChannelRow = ChannelRow(
    id: int,
    userName: string,
    channelName: Option<string>,
    channelDescription: Option<string>,
    logoUrl: Option<string>,
    personalWebsite: Option<string>,
    feedUrl: Option<string>,
    authorName: Option<string>,
    authorEmail: Option<string>,
    ownerName: Option<string>,
    ownerEmail: Option<string>,
    isExplicitContent: int,
    language: Option<string>)

  /** The values of an insert into `channel_info` (its `$inferInsert` type, without the id). */
  datatype NewChannelRow = NewChannelRow(
    userName: string,
    channelName: Supplied<Option<string>>,
    channelDescription: Supplied<Option<string>>,
    logoUrl: Supplied<Option<string>>,
    personalWebsite: Supplied<Option<string>>,
    feedUrl: Supplied<Option<string>>,
    authorName: Supplied<Option<string>>,
    authorEmail: Supplied<Option<string>>,
    ownerName: Supplied<Option<string>>,
    ownerEmail: Supplied<Option<string>>,
    isExplicitContent: Supplied<int>,
    language: Supplied<Option<string>>)

  const DefaultExplicitContent: int := 0
  const DefaultLanguage: string := "en"

  /**
   * The row an insert creates: the given values, `0` for an omitted
   * explicit-content flag, `"en"` for an omitted language, NULL for any
   * other omitted column.
   */
  function InsertedChannelRow(n: NewChannelRow, id: int): (row: ChannelRow)
    ensures row.id == id && row.userName == n.userName
    ensures row.isExplicitContent == (if n.isExplicitContent.Given? then n.isExplicitContent.value else 0)
    ensures row.language == (if n.language.Given? then n.language.value else Some("en"))
    ensures n.channelName.Given? ==> row.channelName == n.channelName.value
    ensures n.channelName.Omitted? ==> row.channelName.None?
    ensures n.channelDescription.Given? ==> row.channelDescription == n.channelDescription.value
    ensures n.channelDescription.Omitted? ==> row.channelDescription.None?
    ensures n.logoUrl.Given? ==> row.logoUrl == n.logoUrl.value
    ensures n.logoUrl.Omitted? ==> row.logoUrl.None?
    ensures n.personalWebsite.Given? ==> row.personalWebsite == n.personalWebsite.value
    ensures n.personalWebsite.Omitted? ==> row.personalWebsite.None?
    ensures n.feedUrl.Given? ==> row.feedUrl == n.feedUrl.value
    ensures n.feedUrl.Omitted? ==> row.feedUrl.None?
    ensures n.authorName.Given? ==> row.authorName == n.authorName.value
    ensures n.authorName.Omitted? ==> row.authorName.None?
    ensures n.authorEmail.Given? ==> row.authorEmail == n.authorEmail.value
    ensures n.authorEmail.Omitted? ==> row.authorEmail.None?
    ensures n.ownerName.Given? ==> row.ownerName == n.ownerName.value
    ensures n.ownerName.Omitted? ==> row.ownerName.None?
    ensures n.ownerEmail.Given? ==> row.ownerEmail == n.ownerEmail.value
    ensures n.ownerEmail.Omitted? ==> row.ownerEmail.None?
  {
    ChannelRow(
      id, n.userName,
      ValueOr(n.channelName, None), ValueOr(n.channelDescription, None),
      ValueOr(n.logoUrl, None), ValueOr(n.personalWebsite, None), ValueOr(n.feedUrl, None),
      ValueOr(n.authorName, None), ValueOr(n.authorEmail, None),
      ValueOr(n.ownerName, None), ValueOr(n.ownerEmail, None),
      ValueOr(n.isExplicitContent, DefaultExplicitContent),
      ValueOr(n.language, Some(DefaultLanguage)))
  }

  /**
   * The constraints of `channel_info` held as a map keyed by user name:
   * each row sits under its own user name (so user names are unique), and
   * the ids are distinct and below the auto-increment counter.
   */
  ghost predicate ChannelsValid(rows: map<string, ChannelRow>, nextId: int)
  {
    && 1 <= nextId
    && (forall u :: u in rows ==> rows[u].userName == u && 1 <= rows[u].id < nextId)
    && (forall u, v :: u in rows && v in rows && u != v ==> rows[u].id != rows[v].id)
  }

  /** The ids of the stored channels, which an episode's `channel_id` may refer to. */
  function ChannelIds(rows: map<string, ChannelRow>): (ids: set<int>)
    ensures forall u :: u in rows ==> rows[u].id in ids
    ensures forall id :: id in ids ==> exists u :: u in rows && rows[u].id == id
  {
    set u | u in rows :: rows[u].id
  }

  datatype DbError = UniqueViolation(column: string) | ForeignKeyViolation(column: string)

  /** What a write gives back: the new table state and the row written, or the violated constraint. */
  datatype Outcome<T> = Done(value: T) | Rejected(error: DbError)

  datatype ChannelWrite = ChannelWrite(rows: map<string, ChannelRow>, nextId: int, row: ChannelRow)

  /**
   * A plain `INSERT INTO channel_info`: rejected when the user name is
   * taken, otherwise the row gets the next id.
   */
  function InsertChannel(rows: map<string, ChannelRow>, nextId: int, n: NewChannelRow): (r: Outcome<ChannelWrite>)
    ensures r.Rejected? <==> n.userName in rows
    ensures r.Rejected? ==> r.error == UniqueViolation("user_name")
    ensures r.Done? ==> r.value.row == InsertedChannelRow(n, nextId)
                        && r.value.rows == rows[n.userName := r.value.row]
                        && r.value.nextId == nextId + 1
  {
    if n.userName in rows then Rejected(UniqueViolation("user_name"))
    else
      var row := InsertedChannelRow(n, nextId);
      Done(ChannelWrite(rows[n.userName := row], nextId + 1, row))
  }

  /** A successful insert keeps the table's constraints. */
  lemma InsertChannelKeepsValid(rows: map<string, ChannelRow>, nextId: int, n: NewChannelRow)
    requires ChannelsValid(rows, nextId)
    ensures InsertChannel(rows, nextId, n).Done? ==>
              var w := InsertChannel(rows, nextId, n).value;
              ChannelsValid(w.rows, w.nextId) && ChannelIds(rows) <= ChannelIds(w.rows)
  {
    if n.userName !in rows {
      var w := InsertChannel(rows, nextId, n).value;
      forall u, v | u in w.rows && v in w.rows && u != v ensures w.rows[u].id != w.rows[v].id {
        if u == n.userName || v == n.userName {
          assert w.rows[n.userName].id == nextId;
        }
      }
      forall i | i in ChannelIds(rows) ensures i in ChannelIds(w.rows) {
        var u :| u in rows && rows[u].id == i;
        assert w.rows[u] == rows[u];
      }
    }
  }

  /** An `episodes` row: `title`, `url`, `tags`, `created_at` and `updated_at` are not null. */
  datatype EpisodeRow = EpisodeRow(
    id: int,
    title: string,
    description: Option<string>,
    url: string,
    thumbnail: Option<string>,
    tags: string,
    createdAt: string,
    updatedAt: string,
    channelId: Option<int>)

  /** The values of an insert into `episodes`, without the id. */
  datatype NewEpisodeRow = NewEpisodeRow(
    title: string,
    description: Supplied<Option<string>>,
    url: string,
    thumbnail: Supplied<Option<string>>,
    tags: string,
    createdAt: Supplied<string>,
    updatedAt: Supplied<string>,
    channelId: Supplied<Option<int>>)

  /**
   * The row an insert creates. Each timestamp column left out is filled
   * by its own default function with the ISO 8601 text of the clock as
   * that function reads it (`createdNow`, `updatedNow`).
   */
  function InsertedEpisodeRow(n: NewEpisodeRow, id: int, createdNow: string, updatedNow: string): (row: EpisodeRow)
    ensures row.id == id && row.title == n.title && row.url == n.url && row.tags == n.tags
    ensures row.createdAt == (if n.createdAt.Given? then n.createdAt.value else createdNow)
    ensures row.updatedAt == (if n.updatedAt.Given? then n.updatedAt.value else updatedNow)
    ensures n.description.Given? ==> row.description == n.description.value
    ensures n.description.Omitted? ==> row.description.None?
    ensures n.thumbnail.Given? ==> row.thumbnail == n.thumbnail.value
    ensures n.thumbnail.Omitted? ==> row.thumbnail.None?
    ensures n.channelId.Given? ==> row.channelId == n.channelId.value
    ensures n.channelId.Omitted? ==> row.channelId.None?
  {
    EpisodeRow(
      id, n.title, ValueOr(n.description, None), n.url, ValueOr(n.thumbnail, None), n.tags,
      ValueOr(n.createdAt, createdNow), ValueOr(n.updatedAt, updatedNow),
      ValueOr(n.channelId, None))
  }

  /**
   * The constraints of `episodes`: distinct ids below the counter, and a
   * present `channel_id` names an existing channel.
   */
  ghost predicate EpisodesValid(episodes: seq<EpisodeRow>, nextId: int, channels: map<string, ChannelRow>)
  {
    && 1 <= nextId
    && (forall i :: 0 <= i < |episodes| ==> 1 <= episodes[i].id < nextId)
    && (forall i, j :: 0 <= i < j < |episodes| ==> episodes[i].id != episodes[j].id)
    && (forall i :: 0 <= i < |episodes| && episodes[i].channelId.Some? ==>
          episodes[i].channelId.value in ChannelIds(channels))
  }

  datatype EpisodeWrite = EpisodeWrite(episodes: seq<EpisodeRow>, nextId: int, row: EpisodeRow)

  /** A plain `INSERT INTO episodes`: rejected when `channel_id` names no channel. */
  function InsertEpisode(episodes: seq<EpisodeRow>, nextId: int, channels: map<string, ChannelRow>,
                         n: NewEpisodeRow, createdNow: string, updatedNow: string): (r: Outcome<EpisodeWrite>)
    ensures r.Rejected? <==> (n.channelId.Given? && n.channelId.value.Some? && n.channelId.value.value !in ChannelIds(channels))
    ensures r.Done? ==> r.value.row == InsertedEpisodeRow(n, nextId, createdNow, updatedNow)
                        && r.value.episodes == episodes + [r.value.row]
                        && r.value.nextId == nextId + 1
  {
    var row := InsertedEpisodeRow(n, nextId, createdNow, updatedNow);
    if row.channelId.Some? && row.channelId.value !in ChannelIds(channels) then
      Rejected(ForeignKeyViolation("channel_id"))
    else
      Done(EpisodeWrite(episodes + [row], nextId + 1, row))
  }

  /** A successful episode insert keeps the table's constraints. */
  lemma InsertEpisodeKeepsValid(episodes: seq<EpisodeRow>, nextId: int, channels: map<string, ChannelRow>,
                                n: NewEpisodeRow, createdNow: string, updatedNow: string)
    requires EpisodesValid(episodes, nextId, channels)
    ensures var r := InsertEpisode(episodes, nextId, channels, n, createdNow, updatedNow);
            r.Done? ==> EpisodesValid(r.value.episodes, r.value.nextId, channels)
  {
  }

  /** Episodes stay valid when channels are only ever added or updated in place, never removed. */
  lemma EpisodesValidUnderChannelGrowth(episodes: seq<EpisodeRow>, nextId: int,
                                        before: map<string, ChannelRow>, after: map<string, ChannelRow>)
    requires EpisodesValid(episodes, nextId, before)
    requires ChannelIds(before) <= ChannelIds(after)
    ensures EpisodesValid(episodes, nextId, after)
  {
  }
}
