/**
 * Server actions of the profile page (app/profile/actions.ts): reading
 * the current channel and saving the profile form through the channel
 * data layer.
 */
module ProfileActions {
  import opened Common
  import opened Types
  import opened Forms
  import opened Schema
  import opened ChannelDb

  /** The user every profile belongs to until authentication exists. */
  const DefaultUserName: string := "defaultuser"

  /**
   * `getCurrentChannel(userName = "defaultuser")`: the channel stored
   * under the user name (the default one when no name is passed), or
   * null when there is none or the table cannot be read.
   */
  function GetCurrentChannel(userName: Option<string>, table: Fetch<map<string, ChannelRow>>): (r: Option<ChannelInfo>)
    ensures table.Threw? ==> r.None?
    ensures table.Fetched? && userName.None? ==> r == Lookup(table.value, DefaultUserName)
    ensures table.Fetched? && userName.Some? ==> r == Lookup(table.value, userName.value)
  {
    match table
    case Threw(_) => None
    case Fetched(rows) =>
      var name := match userName case Some(n) => n case None => DefaultUserName;
      Lookup(rows, name)
  }

  /**
   * The record `updateChannel` builds: always the default user; each text
   * field and the language from the form when non-empty, else `""` and
   * `"en"`; the flag 1 when the checkbox entry is truthy, else 0.
   */
  function ChannelFromForm(values: FormValues): (c: ProfileInput<int>)
    ensures c.userName == DefaultUserName
    ensures forall k :: k in TextKeys ==> TextField(c, k) == TextOr(values, k, "")
    ensures c.isExplicitContent == (if Truthy(values, "isExplicitContent") then 1 else 0)
    ensures c.language == TextOr(values, "language", "en")
  {
    ProfileInput(
      DefaultUserName,
      TextOr(values, "channelName", ""), TextOr(values, "channelDescription", ""),
      TextOr(values, "logoUrl", ""), TextOr(values, "personalWebsite", ""),
      TextOr(values, "feedUrl", ""), TextOr(values, "authorName", ""),
      TextOr(values, "authorEmail", ""), TextOr(values, "ownerName", ""),
      TextOr(values, "ownerEmail", ""),
      if Truthy(values, "isExplicitContent") then 1 else 0,
      TextOr(values, "language", "en"))
  }

  /** A `userName` entry in the form has no effect on the record. */
  lemma ChannelFormIgnoresUserName(values: FormValues, name: string)
    ensures ChannelFromForm(values["userName" := name]) == ChannelFromForm(values)
  {
  }

  /** The result of `updateChannel` and the table after it. */
  datatype ChannelSave = ChannelSave(result: ActionResult<ChannelInfo>, rows: map<string, ChannelRow>, nextId: int)

  /**
   * `updateChannel(formData)`: upserts the record built from the form;
   * `failure` is the error the database client throws, if any, in which
   * case the table is unchanged.
   */
  function UpdateChannel(values: FormValues, rows: map<string, ChannelRow>, nextId: int, failure: Option<string>): (s: ChannelSave)
    ensures failure.Some? ==> s.result == Failed(failure.value) && s.rows == rows && s.nextId == nextId
    ensures failure.None? ==> s.result.Succeeded? && WithoutId(s.result.data) == ChannelFromForm(values)
    ensures failure.None? ==> s.rows.Keys == rows.Keys + {DefaultUserName}
    ensures failure.None? ==>
              var w := Upsert(rows, nextId, NewRowFromInput(ChannelFromForm(values)));
              s.rows == w.rows && s.nextId == w.nextId
  {
    match failure
    case Some(e) => ChannelSave(Failed(e), rows, nextId)
    case None =>
      var input := ChannelFromForm(values);
      var w := Upsert(rows, nextId, NewRowFromInput(input));
      SetChannelInfoReturnsInput(rows, nextId, input);
      ChannelSave(Succeeded(ToChannelInfo(w.row)), w.rows, w.nextId)
  }

  /** After a successful save, `getCurrentChannel()` returns exactly the saved channel. */
  lemma SaveThenRead(values: FormValues, rows: map<string, ChannelRow>, nextId: int)
    ensures var s := UpdateChannel(values, rows, nextId, None);
            GetCurrentChannel(None, Fetched(s.rows)) == Some(s.result.data)
  {
    var s := UpdateChannel(values, rows, nextId, None);
    assert s.rows[DefaultUserName] == Upsert(rows, nextId, NewRowFromInput(ChannelFromForm(values))).row;
  }

  /** Saving the form twice keeps one row for the default user, under the same id. */
  lemma SaveTwiceKeepsOneRow(a: FormValues, b: FormValues, rows: map<string, ChannelRow>, nextId: int)
    ensures var s1 := UpdateChannel(a, rows, nextId, None);
            var s2 := UpdateChannel(b, s1.rows, s1.nextId, None);
            s2.rows.Keys == s1.rows.Keys && s2.result.data.id == s1.result.data.id
            && WithoutId(s2.result.data) == ChannelFromForm(b)
  {
    UpsertTwice(rows, nextId, ChannelFromForm(a), ChannelFromForm(b));
  }
}
