/**
 * The profile page (app/profile/page.tsx): the record built from the
 * profile form, its save through the in-memory store, and the update of
 * the profile the page shows.
 */
module ProfilePage {
  import opened Common
  import opened Types
  import opened Forms
  import MemoryStore

  /**
   * The entries the page's form always submits: every text input and the
   * language selector. Only the checkbox is absent when unticked.
   */
  predicate FormComplete(values: FormValues)
  {
    && (forall k :: k in TextKeys ==> k in values)
    && "language" in values
  }

  /** The checkbox entry a ticked checkbox submits. */
  const CheckedValue: string := "on"

  /**
   * `updatedUserInfo` in `handleSubmit`: the loaded profile's user name,
   * every other field verbatim from the form, and the flag true exactly
   * when the checkbox entry is "on".
   */
  function RecordFromForm(loaded: UserInfo, values: FormValues): (u: ProfileInput<bool>)
    requires FormComplete(values)
    ensures u.userName == loaded.userName
    ensures forall k :: k in TextKeys ==> TextField(u, k) == values[k]
    ensures u.isExplicitContent <==> "isExplicitContent" in values && values["isExplicitContent"] == CheckedValue
    ensures u.language == values["language"]
  {
    var u := ProfileInput(
      loaded.userName,
      values["channelName"], values["channelDescription"], values["logoUrl"],
      values["personalWebsite"], values["feedUrl"], values["authorName"],
      values["authorEmail"], values["ownerName"], values["ownerEmail"],
      "isExplicitContent" in values && values["isExplicitContent"] == CheckedValue,
      values["language"]);
    assert forall k :: k in TextKeys ==> TextField(u, k) == values[k] by {
      forall k | k in TextKeys ensures TextField(u, k) == values[k] {
        assert k in values;
      }
    }
    u
  }

  /** The language selector's initial value: the stored language, or "en" when it is empty. */
  function InitialLanguage(u: UserInfo): (l: string)
    ensures u.language != "" ==> l == u.language
    ensures u.language == "" ==> l == "en"
  {
    if u.language != "" then u.language else "en"
  }

  /**
   * The entries the form submits when the user changes nothing: each text
   * input's `defaultValue` is the stored field, the selector starts at
   * `InitialLanguage`, and the checkbox entry is present, as "on", exactly
   * when the stored flag is set.
   */
  function PrefilledForm(u: UserInfo): (values: FormValues)
    ensures FormComplete(values)
    ensures forall k :: k in TextKeys ==> k in values && values[k] == TextField(WithoutId(u), k)
    ensures "language" in values && values["language"] == InitialLanguage(u)
    ensures "isExplicitContent" in values <==> u.isExplicitContent
    ensures "isExplicitContent" in values ==> values["isExplicitContent"] == CheckedValue
  {
    var text := map k | k in TextKeys :: TextField(WithoutId(u), k);
    var base := text["language" := InitialLanguage(u)];
    if u.isExplicitContent then base["isExplicitContent" := CheckedValue] else base
  }

  /**
   * Submitting the untouched form saves the loaded profile again, except
   * that an empty language becomes "en".
   */
  lemma UntouchedFormSavesSameProfile(u: UserInfo, freshId: int)
    ensures MemoryStore.MergeUserInfo(Some(u), RecordFromForm(u, PrefilledForm(u)), freshId)
         == u.(language := InitialLanguage(u))
  {
    var target := u.(language := InitialLanguage(u));
    var r := RecordFromForm(u, PrefilledForm(u));
    assert r == WithoutId(target);
    assert WithId(r, u.id) == target;
  }

  /** The state of the profile page: the store it saves to and the profile it shows. */
  class Page {
    const store: MemoryStore.Store
    var userInfo: Option<UserInfo>

    constructor (store: MemoryStore.Store, loaded: Option<UserInfo>)
      ensures this.store == store && userInfo == loaded
    {
      this.store := store;
      userInfo := loaded;
    }

    /**
     * `handleSubmit`: with no profile loaded, nothing happens. Otherwise the
     * record built from the form goes to the store's `setUserInfo`; the
     * page then shows what the store saved, unless writing the store out
     * threw (`persistThrew`), in which case the store holds the new
     * profile but the page keeps the old one.
     */
    method HandleSubmit(values: FormValues, freshId: int, persistThrew: bool)
      requires FormComplete(values)
      modifies this, store
      ensures old(userInfo).None? ==>
                userInfo == old(userInfo) && store.userInfo == old(store.userInfo)
      ensures old(userInfo).Some? ==>
                var saved := MemoryStore.MergeUserInfo(old(store.userInfo), RecordFromForm(old(userInfo).value, values), freshId);
                store.userInfo == Some(saved)
                && userInfo == (if persistThrew then old(userInfo) else Some(saved))
      ensures userInfo.Some? ==> userInfo.value.userName == old(userInfo).value.userName
      ensures store.episodes == old(store.episodes)
    {
      if userInfo.None? {
        return;
      }
      var record := RecordFromForm(userInfo.value, values);
      var saved := store.SetUserInfo(record, freshId);
      if !persistThrew {
        userInfo := Some(saved);
      }
    }
  }
}
