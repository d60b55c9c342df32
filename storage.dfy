/**
 * The app's persistent key-value store
 * (KilimoMobileApp/src/services/storage.ts): four keys, each holding a
 * string or absent. A getter whose read fails answers null, modelled by
 * the `readFails` parameter; writes are assumed to succeed.
 */
module Storage {
  import opened Common

  datatype Key = AccessToken | RefreshToken | UserData | UserEmail

  /** The names the keys are stored under. */
  function KeyName(k: Key): string {
    match k
    case AccessToken => "@kilimo_access_token"
    case RefreshToken => "@kilimo_refresh_token"
    case UserData => "@kilimo_user_data"
    case UserEmail => "@kilimo_user_email"
  }

  /** No two keys share a stored name, so writing one never disturbs another. */
  lemma KeyNamesDistinct(a: Key, b: Key)
    requires a != b
    ensures KeyName(a) != KeyName(b)
  {
    assert KeyName(AccessToken)[8] == 'a' && KeyName(RefreshToken)[8] == 'r';
    assert KeyName(UserData)[8] == 'u' && KeyName(UserEmail)[8] == 'u';
    assert KeyName(UserData)[13] == 'd' && KeyName(UserEmail)[13] == 'e';
  }

  /** `getItem`: the stored string, or null for an absent key or a failed read. */
  function Read(items: map<Key, string>, k: Key, readFails: bool): (r: Option<string>)
    ensures r.Some? <==> !readFails && k in items
    ensures r.Some? ==> r.value == items[k]
  {
    if readFails || k !in items then None else Some(items[k])
  }

  class StorageService {
    var items: map<Key, string>

    constructor ()
      ensures items == map[]
    {
      items := map[];
    }

    /** `saveTokens`: both token keys are set; the others keep their values. */
    method SaveTokens(accessToken: string, refreshToken: string)
      modifies this
      ensures items == old(items)[AccessToken := accessToken][RefreshToken := refreshToken]
      ensures items.Keys == old(items).Keys + {AccessToken, RefreshToken}
      ensures items[AccessToken] == accessToken && items[RefreshToken] == refreshToken
      ensures forall k :: k in old(items) && k != AccessToken && k != RefreshToken ==> items[k] == old(items)[k]
    {
      items := items[AccessToken := accessToken][RefreshToken := refreshToken];
    }

    method GetAccessToken(readFails: bool) returns (token: Option<string>)
      ensures token == Read(items, AccessToken, readFails)
    {
      token := Read(items, AccessToken, readFails);
    }

    method GetRefreshToken(readFails: bool) returns (token: Option<string>)
      ensures token == Read(items, RefreshToken, readFails)
    {
      token := Read(items, RefreshToken, readFails);
    }

    /** `removeTokens`: only the two token keys go. */
    method RemoveTokens()
      modifies this
      ensures items == old(items) - {AccessToken, RefreshToken}
      ensures items.Keys == old(items).Keys - {AccessToken, RefreshToken}
      ensures forall k :: k in items ==> items[k] == old(items)[k]
    {
      items := items - {AccessToken, RefreshToken};
    }

    /** `saveUserData`, given the `JSON.stringify` text of the user. */
    method SaveUserData(json: string)
      modifies this
      ensures items == old(items)[UserData := json]
      ensures items.Keys == old(items).Keys + {UserData}
      ensures items[UserData] == json
      ensures forall k :: k in old(items) && k != UserData ==> items[k] == old(items)[k]
    {
      items := items[UserData := json];
    }

    /** `getUserData`: an empty stored text counts as nothing stored. */
    method GetUserData(readFails: bool) returns (json: Option<string>)
      ensures json.Some? <==> Truthy(Read(items, UserData, readFails))
      ensures json.Some? ==> json.value == items[UserData]
    {
      var data := Read(items, UserData, readFails);
      json := if Truthy(data) then data else None;
    }

    /** `removeUserData`: only the user-data key goes. */
    method RemoveUserData()
      modifies this
      ensures items == old(items) - {UserData}
      ensures items.Keys == old(items).Keys - {UserData}
      ensures forall k :: k in items ==> items[k] == old(items)[k]
    {
      items := items - {UserData};
    }

    method SaveUserEmail(email: string)
      modifies this
      ensures items == old(items)[UserEmail := email]
      ensures items.Keys == old(items).Keys + {UserEmail}
      ensures items[UserEmail] == email
      ensures forall k :: k in old(items) && k != UserEmail ==> items[k] == old(items)[k]
    {
      items := items[UserEmail := email];
    }

    method GetUserEmail(readFails: bool) returns (email: Option<string>)
      ensures email == Read(items, UserEmail, readFails)
    {
      email := Read(items, UserEmail, readFails);
    }

    /** `clearAll`: all four keys are removed. */
    method ClearAll()
      modifies this
      ensures items == map[]
    {
      items := items - {AccessToken, RefreshToken, UserData, UserEmail};
      forall k: Key
        ensures k !in items
      {
        match k
        case AccessToken =>
        case RefreshToken =>
        case UserData =>
        case UserEmail =>
      }
      assert items.Keys == {};
    }
  }

  /** Saving the tokens and reading them back with reads that succeed gives what was saved. */
  method TokensRoundTrip(s: StorageService, accessToken: string, refreshToken: string)
    returns (access: Option<string>, refresh: Option<string>)
    modifies s
    ensures access == Some(accessToken) && refresh == Some(refreshToken)
  {
    s.SaveTokens(accessToken, refreshToken);
    access := s.GetAccessToken(false);
    refresh := s.GetRefreshToken(false);
  }

  /** Saving then reading back the e-mail address gives what was saved. */
  method EmailRoundTrip(s: StorageService, email: string) returns (read: Option<string>)
    modifies s
    ensures read == Some(email)
  {
    s.SaveUserEmail(email);
    read := s.GetUserEmail(false);
  }
}
