/**
 * `verifyOTPController` (kilimo-backend/src/controllers/otpController.js):
 * guard the request, verify the code as a verification challenge, then mark
 * the user verified and issue a token.
 */
module OtpController {
  import opened Common
  import opened Users
  import opened OtpService
  import opened Patterns
  import opened Http
  import Validation

  /** `{ success, message, data: { token, user } }` */
  datatype Verified = Verified(success: bool, message: string, token: string, user: PublicUser)

  const UserIdRequired := ErrorResponse("User ID is required", 400)
  const BadOtpFormat := ErrorResponse("Invalid OTP format. Must be 6 digits", 400)

  /** The two guards, in order: a user id, then a six-digit code. */
  function VerifyGuard(userId: Option<string>, otp: Option<string>): (r: Option<Failure>)
    ensures r.None? <==> Truthy(userId) && Truthy(otp) && SixDigits(otp.value)
    ensures !Truthy(userId) ==> r == Some(UserIdRequired)
    ensures Truthy(userId) && r.Some? ==> r == Some(BadOtpFormat)
  {
    if !Truthy(userId) then Some(UserIdRequired)
    else if !Truthy(otp) || !SixDigits(otp.value) then Some(BadOtpFormat)
    else None
  }

  /** The app's `validateOTP` accepts exactly the codes that get past the server's format guard. */
  lemma ClientOtpCheckIsServerCheck(userId: string, otp: string)
    requires userId != ""
    ensures Validation.ValidateOtp(otp) <==> VerifyGuard(Some(userId), Some(otp)).None?
  {
  }

  /**
   * `verifyOTPController` with `generateToken` as the token issuer. A
   * request the guards stop changes nothing; a failed verification only
   * records the attempt; the user is marked verified only after the code
   * is accepted. A missing user row makes the update throw after the
   * challenge has already been consumed.
   */
  method VerifyOtpController(db: UserTable, otps: OtpTable, userId: Option<string>, otp: Option<string>,
                             now: int, generateToken: string -> string)
    returns (r: Result<Verified, Failure>)
    modifies db, otps
    ensures VerifyGuard(userId, otp).Some? ==>
              && r == Err(VerifyGuard(userId, otp).value)
              && db.users == old(db.users) && otps.records == old(otps.records)
    ensures VerifyGuard(userId, otp).None? ==>
              var s := Verify(old(otps.records), userId.value, otp.value, Verification, now);
              var found := FindById(old(db.users), userId.value);
              && otps.records == s.records
              && (s.result.Err? ==> r == Err(Thrown(s.result.error.Message())) && db.users == old(db.users))
              && (s.result.Ok? && found.None? ==> r == Err(RecordNotFound) && db.users == old(db.users))
              && (s.result.Ok? && found.Some? ==>
                    var i := found.value;
                    && db.users == old(db.users)[i := old(db.users)[i].(isVerified := true)]
                    && r == Ok(Verified(true, "OTP verified successfully", generateToken(userId.value),
                                        Public(db.users[i]))))
    ensures r.Ok? ==> r.value.user.isVerified && r.value.user.id == userId.value
    ensures old(otps.Valid()) ==> otps.Valid()
    ensures old(db.Valid()) ==> db.Valid()
  {
    var guard := VerifyGuard(userId, otp);
    if guard.Some? {
      return Err(guard.value);
    }
    var verified := otps.VerifyOtp(userId.value, otp.value, Verification, now);
    if verified.Err? {
      return Err(Thrown(verified.error.Message()));
    }
    var found := FindById(db.users, userId.value);
    if found.None? {
      return Err(RecordNotFound);
    }
    var i := found.value;
    db.users := db.users[i := db.users[i].(isVerified := true)];
    var token := generateToken(userId.value);
    var user := Public(db.users[i]);
    r := Ok(Verified(true, "OTP verified successfully", token, user));
  }
}
