/**
 * The app's authentication service (KilimoMobileApp/src/services/authService.ts):
 * it posts to the server through the HTTP client, decides from the reply
 * whether tokens, the user and the e-mail address are written to the
 * store, and turns a thrown error into the message the screens show.
 *
 * The server's reply, or the error the HTTP client threw, is a parameter
 * of each operation.
 */
module ClientAuth {
  import opened Common
  import opened Storage
  import opened ErrorHandler

  /** `response.data` of a login or verification reply; `userJson` is `JSON.stringify(user)`. */
  datatype AuthData = AuthData(userJson: string, accessToken: string, refreshToken: string)

  datatype AuthResponse = AuthResponse(success: bool, message: string, data: Option<AuthData>)

  datatype OtpResponse = OtpResponse(success: bool, message: string)

  const ServerErrorDefault := "An error occurred"
  const NetworkMessage := "Network error. Please check your connection."
  const UnexpectedMessage := "An unexpected error occurred"

  /**
   * `handleError`: with a response, the body's message or `fallback`
   * ("An error occurred" here, "Failed to submit form" in the form
   * service); with only a request, the network message; otherwise the
   * error's own message or a fixed text. A null error is not handled.
   */
  function HandleError(e: JsError, fallback: string): (r: string)
    requires !e.Nullish?
    ensures e.Object? && e.response.Some? ==>
              r == (if Truthy(DataMessage(e)) then DataMessage(e).value else fallback)
    ensures e.Object? && e.response.None? && e.request.Some? ==> r == NetworkMessage
    ensures e.Object? && e.response.None? && e.request.None? ==>
              r == (if Truthy(e.message) then e.message.value else UnexpectedMessage)
    ensures e.Text? ==> r == UnexpectedMessage
    ensures fallback != "" ==> r != ""
  {
    if e.Object? && e.response.Some? then
      if Truthy(DataMessage(e)) then DataMessage(e).value else fallback
    else if e.Object? && e.request.Some? then NetworkMessage
    else if e.Object? && Truthy(e.message) then e.message.value
    else UnexpectedMessage
  }

  /**
   * The two error formatters of the app disagree: for a server error that
   * carries both an error message and a body message, `formatErrorMessage`
   * shows the former and `handleError` the latter.
   */
  lemma HandlersDisagree(m: string, d: string)
    requires m != "" && d != "" && m != d
    ensures var e := Object(Some(m), None, Some(ErrorResponse(500, Some(ResponseData(Some(d), None)))), None);
      FormatErrorMessage(e) == m && HandleError(e, ServerErrorDefault) == d
  {
  }

  /** They agree on a server error with a body message and no error message of its own. */
  lemma HandlersAgreeOnBodyMessage(e: JsError)
    requires e.Object? && e.response.Some? && !Truthy(e.message) && Truthy(DataMessage(e))
    ensures HandleError(e, ServerErrorDefault) == FormatErrorMessage(e)
  {
  }

  /** Whether a reply makes `login` and `verifyOTP` store a session. */
  predicate Establishes(response: AuthResponse) {
    response.success && response.data.Some?
  }

  /** The store after a session from `data` is saved: both tokens and the user. */
  function WithSession(items: map<Key, string>, data: AuthData): (r: map<Key, string>)
    ensures r.Keys == items.Keys + {AccessToken, RefreshToken, UserData}
    ensures r[AccessToken] == data.accessToken && r[RefreshToken] == data.refreshToken && r[UserData] == data.userJson
    ensures forall k :: k in items && k != AccessToken && k != RefreshToken && k != UserData ==> r[k] == items[k]
  {
    items[AccessToken := data.accessToken][RefreshToken := data.refreshToken][UserData := data.userJson]
  }

  /** The success-gated saving that `login` and `verifyOTP` share. */
  method SaveSessionIfEstablished(storage: StorageService, response: AuthResponse)
    modifies storage
    ensures storage.items == if Establishes(response) then WithSession(old(storage.items), response.data.value)
                             else old(storage.items)
  {
    if response.success && response.data.Some? {
      var data := response.data.value;
      storage.SaveTokens(data.accessToken, data.refreshToken);
      storage.SaveUserData(data.userJson);
    }
  }

  /**
   * `login`, given the server's reply or the error the HTTP client threw:
   * a reply is returned unchanged after a session is saved when it is
   * successful and carries data; an error is rethrown as its message and
   * leaves the store unchanged.
   */
  method Login(storage: StorageService, reply: Result<AuthResponse, JsError>) returns (r: Result<AuthResponse, string>)
    requires reply.Err? ==> !reply.error.Nullish?
    modifies storage
    ensures reply.Err? ==> r == Err(HandleError(reply.error, ServerErrorDefault)) && storage.items == old(storage.items)
    ensures reply.Ok? ==> r == Ok(reply.value)
    ensures reply.Ok? ==>
              storage.items == if Establishes(reply.value) then WithSession(old(storage.items), reply.value.data.value)
                               else old(storage.items)
  {
    if reply.Err? {
      return Err(HandleError(reply.error, ServerErrorDefault));
    }
    SaveSessionIfEstablished(storage, reply.value);
    r := Ok(reply.value);
  }

  /** `verifyOTP`: the same success-gated saving as `login`. */
  method VerifyOtp(storage: StorageService, reply: Result<AuthResponse, JsError>) returns (r: Result<AuthResponse, string>)
    requires reply.Err? ==> !reply.error.Nullish?
    modifies storage
    ensures reply.Err? ==> r == Err(HandleError(reply.error, ServerErrorDefault)) && storage.items == old(storage.items)
    ensures reply.Ok? ==> r == Ok(reply.value)
    ensures reply.Ok? ==>
              storage.items == if Establishes(reply.value) then WithSession(old(storage.items), reply.value.data.value)
                               else old(storage.items)
  {
    if reply.Err? {
      return Err(HandleError(reply.error, ServerErrorDefault));
    }
    SaveSessionIfEstablished(storage, reply.value);
    r := Ok(reply.value);
  }

  /** `signup`: the e-mail address signed up with is saved exactly when the reply is successful. */
  method Signup(storage: StorageService, email: string, reply: Result<OtpResponse, JsError>)
    returns (r: Result<OtpResponse, string>)
    requires reply.Err? ==> !reply.error.Nullish?
    modifies storage
    ensures reply.Err? ==> r == Err(HandleError(reply.error, ServerErrorDefault)) && storage.items == old(storage.items)
    ensures reply.Ok? ==> r == Ok(reply.value)
    ensures reply.Ok? ==>
              storage.items == if reply.value.success then old(storage.items)[UserEmail := email] else old(storage.items)
  {
    if reply.Err? {
      return Err(HandleError(reply.error, ServerErrorDefault));
    }
    if reply.value.success {
      storage.SaveUserEmail(email);
    }
    r := Ok(reply.value);
  }

  /** `logout`: every key is cleared. */
  method Logout(storage: StorageService)
    modifies storage
    ensures storage.items == map[]
  {
    storage.ClearAll();
  }

  /** `isAuthenticated`: a non-empty access token is stored and can be read. */
  method IsAuthenticated(storage: StorageService, readFails: bool) returns (b: bool)
    ensures b <==> !readFails && AccessToken in storage.items && storage.items[AccessToken] != ""
  {
    var token := storage.GetAccessToken(readFails);
    b := Truthy(token);
  }

  /**
   * After a login whose reply establishes a session with a non-empty access
   * token the user counts as authenticated; after a logout, never.
   */
  method LoginThenLogout(storage: StorageService, response: AuthResponse) returns (before: bool, after: bool)
    requires Establishes(response) && response.data.value.accessToken != ""
    modifies storage
    ensures before && !after
  {
    var _ := Login(storage, Ok(response));
    before := IsAuthenticated(storage, false);
    Logout(storage);
    after := IsAuthenticated(storage, false);
  }

  /** A reply that does not establish a session leaves the user's authentication as it was. */
  method FailedLoginKeepsState(storage: StorageService, response: AuthResponse) returns (before: bool, after: bool)
    requires !Establishes(response)
    modifies storage
    ensures before == after
  {
    before := IsAuthenticated(storage, false);
    var _ := Login(storage, Ok(response));
    after := IsAuthenticated(storage, false);
  }
}
