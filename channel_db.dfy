/**
 * The channel-profile data layer (lib/db/db.ts): the row-to-profile
 * mapper and the lookup and upsert on `channel_info`, with the table held
 * as a map from user name to row.
 */
module ChannelDb {
  import opened Common
  import opened Types
  import opened Schema

  function OrEmpty(column: Option<string>): (s: string)
    ensures column.Some? ==> s == column.value
    ensures column.None? ==> s == ""
  {
    match column
    case Some(v) => v
    case None => ""
  }

  /**
   * `dbChannelToChannelInfo`: NULL text columns become `""`, a NULL
   * language becomes `"en"`; id, user name and the flag pass through.
   */
  function ToChannelInfo(row: ChannelRow): (c: ChannelInfo)
    ensures c.id == row.id && c.userName == row.userName
    ensures c.isExplicitContent == row.isExplicitContent
    ensures c.channelName == OrEmpty(row.channelName)
    ensures c.channelDescription == OrEmpty(row.channelDescription)
    ensures c.logoUrl == OrEmpty(row.logoUrl)
    ensures c.personalWebsite == OrEmpty(row.personalWebsite)
    ensures c.feedUrl == OrEmpty(row.feedUrl)
    ensures c.authorName == OrEmpty(row.authorName)
    ensures c.authorEmail == OrEmpty(row.authorEmail)
    ensures c.ownerName == OrEmpty(row.ownerName)
    ensures c.ownerEmail == OrEmpty(row.ownerEmail)
    ensures c.language == (if row.language.Some? then row.language.value else "en")
  {
    Profile(
      row.id, row.userName,
      OrEmpty(row.channelName), OrEmpty(row.channelDescription), OrEmpty(row.logoUrl),
      OrEmpty(row.personalWebsite), OrEmpty(row.feedUrl), OrEmpty(row.authorName),
      OrEmpty(row.authorEmail), OrEmpty(row.ownerName), OrEmpty(row.ownerEmail),
      row.isExplicitContent,
      match row.language case Some(l) => l case None => DefaultLanguage)
  }

  /**
   * A channel inserted with nothing but its user name reads back with
   * empty texts, flag 0 and language "en": the column defaults and the
   * conversion's fallbacks together.
   */
  lemma ToChannelInfoOfNullRow(id: int, userName: string)
    ensures var n := NewChannelRow(userName, Omitted, Omitted, Omitted, Omitted, Omitted,
                                   Omitted, Omitted, Omitted, Omitted, Omitted, Omitted);
            var c := ToChannelInfo(InsertedChannelRow(n, id));
            && c.id == id && c.userName == userName
            && (forall k :: k in TextKeys ==> TextField(WithoutId(c), k) == "")
            && c.isExplicitContent == 0 && c.language == "en"
  {
  }

  /** `getChannelInfo`: the mapped row stored under the user name, or null. */
  function Lookup(rows: map<string, ChannelRow>, userName: string): (r: Option<ChannelInfo>)
    ensures r.None? <==> userName !in rows
    ensures r.Some? ==> r.value == ToChannelInfo(rows[userName])
  {
    if userName in rows then Some(ToChannelInfo(rows[userName])) else None
  }

  /** `newChannel` in `setChannelInfo`: every input field except the id, as a column value. */
  function NewRowFromInput(input: ProfileInput<int>): (n: NewChannelRow)
    ensures n.userName == input.userName
    ensures n.channelName == Given(Some(input.channelName))
    ensures n.channelDescription == Given(Some(input.channelDescription))
    ensures n.logoUrl == Given(Some(input.logoUrl))
    ensures n.personalWebsite == Given(Some(input.personalWebsite))
    ensures n.feedUrl == Given(Some(input.feedUrl))
    ensures n.authorName == Given(Some(input.authorName))
    ensures n.authorEmail == Given(Some(input.authorEmail))
    ensures n.ownerName == Given(Some(input.ownerName))
    ensures n.ownerEmail == Given(Some(input.ownerEmail))
    ensures n.isExplicitContent == Given(input.isExplicitContent)
    ensures n.language == Given(Some(input.language))
  {
    NewChannelRow(
      input.userName,
      Given(Some(input.channelName)), Given(Some(input.channelDescription)),
      Given(Some(input.logoUrl)), Given(Some(input.personalWebsite)), Given(Some(input.feedUrl)),
      Given(Some(input.authorName)), Given(Some(input.authorEmail)),
      Given(Some(input.ownerName)), Given(Some(input.ownerEmail)),
      Given(input.isExplicitContent), Given(Some(input.language)))
  }

  /** `DO UPDATE SET`: the columns the insert supplies overwrite the stored row; the id stays. */
  function Overwrite(row: ChannelRow, n: NewChannelRow): (r: ChannelRow)
    ensures r.id == row.id && r.userName == n.userName
    ensures n.channelName.Given? ==> r.channelName == n.channelName.value
    ensures n.channelName.Omitted? ==> r.channelName == row.channelName
    ensures n.channelDescription.Given? ==> r.channelDescription == n.channelDescription.value
    ensures n.channelDescription.Omitted? ==> r.channelDescription == row.channelDescription
    ensures n.logoUrl.Given? ==> r.logoUrl == n.logoUrl.value
    ensures n.logoUrl.Omitted? ==> r.logoUrl == row.logoUrl
    ensures n.personalWebsite.Given? ==> r.personalWebsite == n.personalWebsite.value
    ensures n.personalWebsite.Omitted? ==> r.personalWebsite == row.personalWebsite
    ensures n.feedUrl.Given? ==> r.feedUrl == n.feedUrl.value
    ensures n.feedUrl.Omitted? ==> r.feedUrl == row.feedUrl
    ensures n.authorName.Given? ==> r.authorName == n.authorName.value
    ensures n.authorName.Omitted? ==> r.authorName == row.authorName
    ensures n.authorEmail.Given? ==> r.authorEmail == n.authorEmail.value
    ensures n.authorEmail.Omitted? ==> r.authorEmail == row.authorEmail
    ensures n.ownerName.Given? ==> r.ownerName == n.ownerName.value
    ensures n.ownerName.Omitted? ==> r.ownerName == row.ownerName
    ensures n.ownerEmail.Given? ==> r.ownerEmail == n.ownerEmail.value
    ensures n.ownerEmail.Omitted? ==> r.ownerEmail == row.ownerEmail
    ensures n.isExplicitContent.Given? ==> r.isExplicitContent == n.isExplicitContent.value
    ensures n.isExplicitContent.Omitted? ==> r.isExplicitContent == row.isExplicitContent
    ensures n.language.Given? ==> r.language == n.language.value
    ensures n.language.Omitted? ==> r.language == row.language
  {
    ChannelRow(
      row.id, n.userName,
      ValueOr(n.channelName, row.channelName), ValueOr(n.channelDescription, row.channelDescription),
      ValueOr(n.logoUrl, row.logoUrl), ValueOr(n.personalWebsite, row.personalWebsite),
      ValueOr(n.feedUrl, row.feedUrl), ValueOr(n.authorName, row.authorName),
      ValueOr(n.authorEmail, row.authorEmail), ValueOr(n.ownerName, row.ownerName),
      ValueOr(n.ownerEmail, row.ownerEmail),
      ValueOr(n.isExplicitContent, row.isExplicitContent), ValueOr(n.language, row.language))
  }

  /**
   * `INSERT … ON CONFLICT(user_name) DO UPDATE SET …`: updates the row of
   * that user name in place, or inserts a new row under the next id.
   */
  function Upsert(rows: map<string, ChannelRow>, nextId: int, n: NewChannelRow): (w: ChannelWrite)
    ensures w.rows == rows[n.userName := w.row]
    ensures n.userName in rows ==> w.row == Overwrite(rows[n.userName], n) && w.nextId == nextId
    ensures n.userName !in rows ==> w.row == InsertedChannelRow(n, nextId) && w.nextId == nextId + 1
  {
    if n.userName in rows then
      var row := Overwrite(rows[n.userName], n);
      ChannelWrite(rows[n.userName := row], nextId, row)
    else
      InsertChannel(rows, nextId, n).value
  }

  /** The upsert keeps the table's constraints and never loses a channel id. */
  lemma UpsertKeepsValid(rows: map<string, ChannelRow>, nextId: int, n: NewChannelRow)
    requires ChannelsValid(rows, nextId)
    ensures var w := Upsert(rows, nextId, n);
            ChannelsValid(w.rows, w.nextId) && ChannelIds(rows) <= ChannelIds(w.rows)
  {
    var w := Upsert(rows, nextId, n);
    if n.userName in rows {
      forall u, v | u in w.rows && v in w.rows && u != v ensures w.rows[u].id != w.rows[v].id {
        if u == n.userName {
          assert w.rows[u].id == rows[u].id && w.rows[v] == rows[v];
        } else if v == n.userName {
          assert w.rows[v].id == rows[v].id && w.rows[u] == rows[u];
        }
      }
      forall i | i in ChannelIds(rows) ensures i in ChannelIds(w.rows) {
        var u :| u in rows && rows[u].id == i;
        assert w.rows[u].id == i;
      }
    } else {
      InsertChannelKeepsValid(rows, nextId, n);
    }
  }

  /** What `setChannelInfo` returns carries every input field unchanged. */
  lemma SetChannelInfoReturnsInput(rows: map<string, ChannelRow>, nextId: int, input: ProfileInput<int>)
    ensures WithoutId(ToChannelInfo(Upsert(rows, nextId, NewRowFromInput(input)).row)) == input
  {
  }

  /**
   * Saving twice under one user name leaves one row, under the first
   * save's id, holding the second save's values, and looking the name up
   * gives those values.
   */
  lemma UpsertTwice(rows: map<string, ChannelRow>, nextId: int, a: ProfileInput<int>, b: ProfileInput<int>)
    requires a.userName == b.userName
    ensures var w1 := Upsert(rows, nextId, NewRowFromInput(a));
            var w2 := Upsert(w1.rows, w1.nextId, NewRowFromInput(b));
            && w2.rows.Keys == w1.rows.Keys
            && w2.row.id == w1.row.id
            && w2.nextId == w1.nextId
            && Lookup(w2.rows, b.userName) == Some(WithId(b, w1.row.id))
  {
    var w1 := Upsert(rows, nextId, NewRowFromInput(a));
    var w2 := Upsert(w1.rows, w1.nextId, NewRowFromInput(b));
    SetChannelInfoReturnsInput(w1.rows, w1.nextId, b);
    assert w2.rows[b.userName] == w2.row;
  }

  /** The upsert leaves every other user's row as it was. */
  lemma UpsertLeavesOthers(rows: map<string, ChannelRow>, nextId: int, n: NewChannelRow, other: string)
    requires other != n.userName
    ensures Lookup(Upsert(rows, nextId, n).rows, other) == Lookup(rows, other)
  {
  }

  /** The `channel_info` table as the data layer sees it, changed in place by its methods. */
  class ChannelInfoTable {
    var rows: map<string, ChannelRow>
    var nextId: int

    ghost predicate Valid()
      reads this
    {
      ChannelsValid(rows, nextId)
    }

    constructor ()
      ensures Valid() && rows == map[] && nextId == 1
    {
      rows := map[];
      nextId := 1;
    }

    /** `getChannelInfo(userName)`. */
    method GetChannelInfo(userName: string) returns (r: Option<ChannelInfo>)
      ensures r.None? <==> userName !in rows
      ensures r.Some? ==> r.value == ToChannelInfo(rows[userName])
      ensures Valid() && r.Some? ==> r.value.userName == userName
    {
      r := Lookup(rows, userName);
    }

    /**
     * `setChannelInfo(input)`: upserts on the user name and returns the
     * mapping of the stored row.
     */
    method SetChannelInfo(input: ProfileInput<int>) returns (c: ChannelInfo)
      requires Valid()
      modifies this
      ensures Valid()
      ensures WithoutId(c) == input
      ensures rows == old(rows)[input.userName := Upsert(old(rows), old(nextId), NewRowFromInput(input)).row]
      ensures nextId == Upsert(old(rows), old(nextId), NewRowFromInput(input)).nextId
      ensures input.userName in old(rows) ==> c.id == old(rows)[input.userName].id
      ensures input.userName !in old(rows) ==> c.id == old(nextId)
      ensures Lookup(rows, input.userName) == Some(c)
    {
      var n := NewRowFromInput(input);
      UpsertKeepsValid(rows, nextId, n);
      SetChannelInfoReturnsInput(rows, nextId, input);
      var w := Upsert(rows, nextId, n);
      rows, nextId := w.rows, w.nextId;
      c := ToChannelInfo(w.row);
    }
  }
}
