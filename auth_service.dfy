/**
 * Registration, login, the sending of a verification code and the lookup
 * of a user by id (kilimo-backend/src/services/authService.js). A thrown
 * error is an `Err` carrying its message.
 */
module AuthService {
  import opened Common
  import opened Crypto
  import opened JsText
  import opened Users
  import opened OtpService
  import opened Mail

  const UserExists := "User with this email already exists"
  const InvalidCredentials := "Invalid credentials"
  const UserNotFound := "User not found"

  /**
   * `registerUser(email, password)`, with `freshId` as the id the database
   * assigns: a second account for an address in any letter case is
   * refused; otherwise the lower-cased address, the digest of the password
   * and an unverified flag are stored.
   */
  method RegisterUser(db: UserTable, email: string, password: string, freshId: string)
    returns (r: Result<PublicUser, string>)
    requires FindById(db.users, freshId).None?
    modifies db
    ensures FindByEmail(old(db.users), LowerCase(email)).Some? ==>
              r == Err(UserExists) && db.users == old(db.users)
    ensures FindByEmail(old(db.users), LowerCase(email)).None? ==>
              && db.users == old(db.users) + [User(freshId, LowerCase(email), Hash(password), false)]
              && r == Ok(PublicUser(freshId, LowerCase(email), false))
    ensures old(db.Valid()) ==> db.Valid()
  {
    var existing := FindByEmail(db.users, LowerCase(email));
    if existing.Some? {
      return Err(UserExists);
    }
    var hashed := Hash(password);
    var user := User(freshId, LowerCase(email), hashed, false);
    LowerCaseIsLowerCased(email);
    db.users := db.users + [user];
    r := Ok(Public(user));
  }

  /**
   * Once an address is registered, every spelling of it that differs only
   * in letter case is found by the next registration, which is refused.
   */
  lemma RegistrationIgnoresCase(users: seq<User>, a: string, b: string, id: string, d: Digest)
    requires SameIgnoringCase(a, b)
    ensures FindByEmail(users + [User(id, LowerCase(a), d, false)], LowerCase(b)).Some?
  {
    SameIgnoringCaseLowerCase(a, b);
    var after := users + [User(id, LowerCase(a), d, false)];
    assert after[|users|].email == LowerCase(b);
  }

  /**
   * `loginUser(email, password)`: the stored user when the lower-cased
   * address exists and the password matches its digest; the same
   * "Invalid credentials" for an unknown address and a wrong password.
   */
  function LoginUser(users: seq<User>, email: string, password: string): (r: Result<User, string>)
    ensures r.Err? ==> r.error == InvalidCredentials
    ensures r.Ok? ==> r.value in users && r.value.email == LowerCase(email) && Compare(password, r.value.password)
  {
    match FindByEmail(users, LowerCase(email))
    case None => Err(InvalidCredentials)
    case Some(i) =>
      if !Compare(password, users[i].password) then Err(InvalidCredentials)
      else Ok(users[i])
  }

  /** In a valid table login succeeds exactly for the registered address with the password it was stored with. */
  lemma LoginUserSucceedsIff(users: seq<User>, email: string, password: string)
    requires UsersValid(users)
    ensures LoginUser(users, email, password).Ok? <==>
              exists i :: 0 <= i < |users| && users[i].email == LowerCase(email) && users[i].password == Hash(password)
  {
    if exists i :: 0 <= i < |users| && users[i].email == LowerCase(email) && users[i].password == Hash(password) {
      var i :| 0 <= i < |users| && users[i].email == LowerCase(email) && users[i].password == Hash(password);
      FindUnique(users, i);
    }
  }

  /** A user registered with a password can log in with it under any letter case of the address. */
  lemma RegisterThenLogin(users: seq<User>, email: string, loginEmail: string, password: string, id: string)
    requires UsersValid(users) && FindByEmail(users, LowerCase(email)).None? && FindById(users, id).None?
    requires SameIgnoringCase(email, loginEmail)
    ensures LoginUser(users + [User(id, LowerCase(email), Hash(password), false)], loginEmail, password)
            == Ok(User(id, LowerCase(email), Hash(password), false))
  {
    var after := users + [User(id, LowerCase(email), Hash(password), false)];
    SameIgnoringCaseLowerCase(email, loginEmail);
    LowerCaseIsLowerCased(email);
    assert UsersValid(after);
    FindUnique(after, |users|);
  }

  /**
   * `sendOTP(userId, email)`: a verification challenge is created, its
   * plain code is mailed to `email`, and the stored record is returned.
   */
  method SendOtp(otps: OtpTable, outbox: Outbox, userId: string, email: string, otpCode: string, now: int)
    returns (otpRecord: OtpRecord)
    modifies otps, outbox
    ensures otps.records == Create(old(otps.records), userId, Verification, otpCode, now, otps.expireMinutes)
    ensures otpRecord == otps.records[|otps.records| - 1]
    ensures outbox.sent == old(outbox.sent) + [OtpMail(email, otpCode)]
    ensures old(otps.Valid()) ==> otps.Valid()
  {
    var code;
    otpRecord, code := otps.CreateOtp(userId, Verification, otpCode, now);
    var _ := outbox.SendOtpEmail(email, code);
  }

  /** `getUserById(userId)`: the public columns of the row, or "User not found". */
  function GetUserById(users: seq<User>, userId: string): (r: Result<PublicUser, string>)
    ensures r.Err? <==> forall i :: 0 <= i < |users| ==> users[i].id != userId
    ensures r.Err? ==> r.error == UserNotFound
    ensures r.Ok? ==> r.value.id == userId && exists i :: 0 <= i < |users| && Public(users[i]) == r.value
  {
    match FindById(users, userId)
    case None => Err(UserNotFound)
    case Some(i) => Ok(Public(users[i]))
  }
}
