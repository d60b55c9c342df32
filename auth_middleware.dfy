/**
 * `protect` (kilimo-backend/src/middleware/auth.js): the bearer token is
 * taken from the Authorization header, a loose form of section 2.1 of
 * RFC 6750, then verified and resolved to a user.
 */
module AuthMiddleware {
  import opened Common
  import opened JsText
  import opened Users
  import opened Http

  const NotAuthorized := ErrorResponse("Not authorized to access this route", 401)
  const UserMissing := ErrorResponse("User not found", 404)

  /**
   * The token `protect` goes on with: the header must be non-empty and start
   * with "Bearer" (no space required), and its second space-separated
   * field must be non-empty.
   */
  function ExtractToken(authorization: Option<string>): (r: Option<string>)
    ensures r.Some? ==>
              && Truthy(authorization) && StartsWith(authorization.value, "Bearer")
              && r.value != "" && forall k :: 0 <= k < |r.value| ==> r.value[k] != ' '
    ensures r.Some? <==>
              && Truthy(authorization) && StartsWith(authorization.value, "Bearer")
              && Truthy(SecondField(authorization.value, ' '))
  {
    if Truthy(authorization) && StartsWith(authorization.value, "Bearer") then
      var token := SecondField(authorization.value, ' ');
      if Truthy(token) then token else None
    else None
  }

  /** The well-formed header "Bearer " + token gives back the token. */
  lemma BearerRoundTrip(token: string)
    requires token != "" && forall k :: 0 <= k < |token| ==> token[k] != ' '
    ensures ExtractToken(Some("Bearer " + token)) == Some(token)
  {
    var h := "Bearer " + token;
    assert h[..6] == "Bearer";
    assert IndexOf(h, ' ') == Some(6) by {
      assert h[6] == ' ';
      assert forall k :: 0 <= k < 6 ==> h[k] != ' ';
    }
    assert h[7..] == token;
    assert IndexOf(token, ' ').None?;
  }

  /**
   * The prefix check is loose: "Bearer" followed by anything without a
   * space, then a space and a token, gives the token.
   */
  lemma LoosePrefix(junk: string, token: string)
    requires forall k :: 0 <= k < |junk| ==> junk[k] != ' '
    requires token != "" && forall k :: 0 <= k < |token| ==> token[k] != ' '
    ensures ExtractToken(Some("Bearer" + junk + " " + token)) == Some(token)
  {
    var h := "Bearer" + junk + " " + token;
    var n := 6 + |junk|;
    assert h[..6] == "Bearer";
    assert IndexOf(h, ' ') == Some(n) by {
      assert h[n] == ' ';
      assert forall k :: 0 <= k < n ==> h[k] != ' ' by {
        assert forall k :: 0 <= k < 6 ==> h[k] == "Bearer"[k];
        assert forall k :: 6 <= k < n ==> h[k] == junk[k - 6];
      }
    }
    assert h[n + 1..] == token;
    assert IndexOf(token, ' ').None?;
  }

  /** Another scheme carries no token. */
  lemma OtherScheme()
    ensures ExtractToken(Some("Basic abc")) == None
  {
    assert "Basic abc"[..6] == "Basic ";
  }

  /** A header with no second field, or an empty one, carries no token. */
  lemma MissingToken()
    ensures ExtractToken(Some("Bearer")) == None
    ensures ExtractToken(Some("Bearer ")) == None
  {
    assert IndexOf("Bearer", ' ').None?;
    var c := "Bearer ";
    assert c[..6] == "Bearer";
    assert IndexOf(c, ' ') == Some(6) by {
      assert c[6] == ' ';
      assert forall k :: 0 <= k < 6 ==> c[k] != ' ';
    }
    assert c[7..] == "";
  }

  /**
   * `protect` with `verifyToken` giving the id a token was issued for (None
   * where it throws): 401 without a usable token or with one it rejects,
   * 404 for an id with no user, otherwise the user's public columns, which
   * become `req.user`.
   */
  function Protect(users: seq<User>, authorization: Option<string>, verifyToken: string -> Option<string>)
    : (r: Result<PublicUser, Failure>)
    ensures ExtractToken(authorization).None? ==> r == Err(NotAuthorized)
    ensures ExtractToken(authorization).Some? && verifyToken(ExtractToken(authorization).value).None? ==>
              r == Err(NotAuthorized)
    ensures r == Err(UserMissing) <==>
              && ExtractToken(authorization).Some?
              && var id := verifyToken(ExtractToken(authorization).value);
                 id.Some? && forall i :: 0 <= i < |users| ==> users[i].id != id.value
    ensures r.Ok? ==>
              && ExtractToken(authorization).Some?
              && verifyToken(ExtractToken(authorization).value) == Some(r.value.id)
              && exists i :: 0 <= i < |users| && Public(users[i]) == r.value
  {
    match ExtractToken(authorization)
    case None => Err(NotAuthorized)
    case Some(token) =>
      match verifyToken(token)
      case None => Err(NotAuthorized)
      case Some(id) =>
        match FindById(users, id)
        case None => Err(UserMissing)
        case Some(i) => Ok(Public(users[i]))
  }

  /** A token issued for a stored user, sent as "Bearer " + token, lets that user through. */
  lemma IssuedTokenAdmits(users: seq<User>, i: nat, token: string, verifyToken: string -> Option<string>)
    requires UsersValid(users) && i < |users|
    requires token != "" && forall k :: 0 <= k < |token| ==> token[k] != ' '
    requires verifyToken(token) == Some(users[i].id)
    ensures Protect(users, Some("Bearer " + token), verifyToken) == Ok(Public(users[i]))
  {
    BearerRoundTrip(token);
    FindUnique(users, i);
  }
}
