/**
 * The "remember me" service: three keys of the browser's string store
 * hold the flag, the e-mail and the password of the last sign-in.
 */
module RememberMe {

  import opened Wrappers

  const RememberMeKey := "rememberMe"
  const UserEmailKey := "userEmail"
  const UserPasswordKey := "userPassword"

  /** The browser's `localStorage`: a map from keys to string values. */
  class LocalStorage {

    var items: map<string, string>

    constructor()
      ensures items == map[]
    {
      items := map[];
    }

    /** `getItem`: the stored value, or nothing (JavaScript's `null`) for a missing key. */
    function GetItem(key: string): (r: Option<string>)
      reads this
      ensures r.Some? <==> key in items
      ensures r.Some? ==> r.value == items[key]
    {
      if key in items then Some(items[key]) else None
    }

    method SetItem(key: string, value: string)
      modifies this
      ensures items == old(items)[key := value]
    {
      items := items[key := value];
    }

    method RemoveItem(key: string)
      modifies this
      ensures items == old(items) - {key}
    {
      items := items - {key};
    }
  }

  datatype Credentials = Credentials(email: string, password: string)

  datatype StoredCredentials = StoredCredentials(email: Option<string>, password: Option<string>, rememberMe: bool)

  /** `hasStoredCredentials`: the flag holds exactly the string `true`. */
  function HasStoredCredentials(storage: LocalStorage): (r: bool)
    reads storage
    ensures r <==> RememberMeKey in storage.items && storage.items[RememberMeKey] == "true"
  {
    storage.GetItem(RememberMeKey) == Some("true")
  }

  /** `getStoredCredentials`: nothing unless the flag is set, otherwise whatever e-mail and password are stored. */
  function GetStoredCredentials(storage: LocalStorage): (r: Option<StoredCredentials>)
    reads storage
    ensures r.Some? <==> HasStoredCredentials(storage)
    ensures r.Some? ==> r.value.rememberMe
    ensures r.Some? ==> (r.value.email.Some? <==> UserEmailKey in storage.items)
    ensures r.Some? && r.value.email.Some? ==> r.value.email.value == storage.items[UserEmailKey]
    ensures r.Some? ==> (r.value.password.Some? <==> UserPasswordKey in storage.items)
    ensures r.Some? && r.value.password.Some? ==> r.value.password.value == storage.items[UserPasswordKey]
  {
    var isRemembered := storage.GetItem(RememberMeKey) == Some("true");
    if !isRemembered then None
    else Some(StoredCredentials(storage.GetItem(UserEmailKey), storage.GetItem(UserPasswordKey), true))
  }

  /** `saveCredentials`: sets the three keys and touches no other. */
  method SaveCredentials(storage: LocalStorage, credentials: Credentials)
    modifies storage
    ensures storage.items == old(storage.items)
      [RememberMeKey := "true"][UserEmailKey := credentials.email][UserPasswordKey := credentials.password]
    ensures GetStoredCredentials(storage) ==
      Some(StoredCredentials(Some(credentials.email), Some(credentials.password), true))
  {
    storage.SetItem(RememberMeKey, "true");
    storage.SetItem(UserEmailKey, credentials.email);
    storage.SetItem(UserPasswordKey, credentials.password);
  }

  /** `clearCredentials`: removes the three keys and touches no other; nothing is remembered afterwards. */
  method ClearCredentials(storage: LocalStorage)
    modifies storage
    ensures storage.items == old(storage.items) - {RememberMeKey, UserEmailKey, UserPasswordKey}
    ensures GetStoredCredentials(storage) == None
    ensures !HasStoredCredentials(storage)
  {
    storage.RemoveItem(RememberMeKey);
    storage.RemoveItem(UserEmailKey);
    storage.RemoveItem(UserPasswordKey);
  }

  /** `updateCredentialsIfRemembered`: a save when the flag is set, and no change otherwise. */
  method UpdateCredentialsIfRemembered(storage: LocalStorage, credentials: Credentials)
    modifies storage
    ensures old(HasStoredCredentials(storage)) ==> storage.items == old(storage.items)
      [RememberMeKey := "true"][UserEmailKey := credentials.email][UserPasswordKey := credentials.password]
    ensures !old(HasStoredCredentials(storage)) ==> storage.items == old(storage.items)
    ensures HasStoredCredentials(storage) == old(HasStoredCredentials(storage))
  {
    if HasStoredCredentials(storage) {
      SaveCredentials(storage, credentials);
    }
  }

  /**
   * The login page's "remember me" checkbox saves the credentials when ticked
   * and clears them when unticked: ticking and then unticking it leaves every
   * other key as it was and nothing remembered.
   */
  method SaveThenClear(storage: LocalStorage, credentials: Credentials)
    modifies storage
    ensures storage.items == old(storage.items) - {RememberMeKey, UserEmailKey, UserPasswordKey}
    ensures GetStoredCredentials(storage) == None
  {
    SaveCredentials(storage, credentials);
    ClearCredentials(storage);
    assert storage.items == old(storage.items) - {RememberMeKey, UserEmailKey, UserPasswordKey};
  }
}
