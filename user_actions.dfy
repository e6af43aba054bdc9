/**
 * Server actions for the user profile (app/actions/user.ts). The
 * `getUserInfo` and `setUserInfo` they call are not part of this model
 * and are parameters.
 */
module UserActions {
  import opened Common
  import opened Types
  import opened Forms
  import ProfileActions

  /** The error `updateUser` throws in place of whatever the store threw. */
  const UpdateFailed: string := "Failed to update user information"

  /**
   * `getCurrentUser(userName = "defaultuser")`: what the store returns
   * for the name (the default one when none is passed), or null when it
   * throws.
   */
  function GetCurrentUser(userName: Option<string>, getUserInfo: string -> Fetch<Option<UserInfo>>): (r: Option<UserInfo>)
    ensures var asked := if userName.Some? then userName.value else ProfileActions.DefaultUserName;
            && (getUserInfo(asked).Threw? ==> r.None?)
            && (getUserInfo(asked).Fetched? ==> r == getUserInfo(asked).value)
  {
    var asked := match userName case Some(n) => n case None => ProfileActions.DefaultUserName;
    match getUserInfo(asked)
    case Fetched(u) => u
    case Threw(_) => None
  }

  /**
   * The record `updateUser` builds: the user name from the form or
   * `"defaultuser"`, the other fields as in `updateChannel`. The flag is
   * the number 1 or 0 although `UserInfo` declares it boolean.
   */
  function UserFromForm(values: FormValues): (u: ProfileInput<int>)
    ensures u.userName == TextOr(values, "userName", ProfileActions.DefaultUserName)
    ensures forall k :: k in TextKeys ==> TextField(u, k) == TextOr(values, k, "")
    ensures u.isExplicitContent == (if Truthy(values, "isExplicitContent") then 1 else 0)
    ensures u.language == TextOr(values, "language", "en")
  {
    ProfileInput(
      TextOr(values, "userName", ProfileActions.DefaultUserName),
      TextOr(values, "channelName", ""), TextOr(values, "channelDescription", ""),
      TextOr(values, "logoUrl", ""), TextOr(values, "personalWebsite", ""),
      TextOr(values, "feedUrl", ""), TextOr(values, "authorName", ""),
      TextOr(values, "authorEmail", ""), TextOr(values, "ownerName", ""),
      TextOr(values, "ownerEmail", ""),
      if Truthy(values, "isExplicitContent") then 1 else 0,
      TextOr(values, "language", "en"))
  }

  /**
   * The user form and the channel form build the same record except for
   * the user name, and agree on it too when the form names no user.
   */
  lemma UserFormMatchesChannelForm(values: FormValues)
    ensures UserFromForm(values).(userName := ProfileActions.DefaultUserName) == ProfileActions.ChannelFromForm(values)
    ensures !Truthy(values, "userName") ==> UserFromForm(values) == ProfileActions.ChannelFromForm(values)
  {
  }

  /**
   * `updateUser(formData)`: what the store's `setUserInfo` returns for the
   * built record; when it throws, a new error with a fixed message.
   */
  function UpdateUser(values: FormValues, setUserInfo: ProfileInput<int> -> Fetch<UserInfo>): (r: Fetch<UserInfo>)
    ensures setUserInfo(UserFromForm(values)).Fetched? ==> r == setUserInfo(UserFromForm(values))
    ensures setUserInfo(UserFromForm(values)).Threw? ==> r == Threw(UpdateFailed)
  {
    match setUserInfo(UserFromForm(values))
    case Fetched(u) => Fetched(u)
    case Threw(_) => Threw(UpdateFailed)
  }
}
