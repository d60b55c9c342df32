/**
 * Password reset by e-mailed code: the service
 * (kilimo-backend/src/services/passwordResetService.js) and the guards of
 * its two endpoints
 * (kilimo-backend/src/controllers/passwordResetController.js).
 */
module PasswordReset {
  import opened Common
  import opened Crypto
  import opened JsText
  import opened Users
  import opened OtpService
  import opened Mail
  import opened Http

  const UnknownEmailReply := Reply(true, "If email exists, reset instructions sent")
  const OtpSentReply := Reply(true, "Password reset OTP sent to email")
  const ResetDoneReply := Reply(true, "Password reset successfully")
  const UserNotFound := "User not found"

  /**
   * `requestPasswordReset(email)` with `otpCode` as the generator's output:
   * an unknown address gets the generic reply and nothing happens; a known
   * one gets a password-reset challenge whose plain code is mailed to the
   * stored address.
   */
  method RequestPasswordReset(db: UserTable, otps: OtpTable, outbox: Outbox, email: string, otpCode: string, now: int)
    returns (r: Reply)
    modifies otps, outbox
    ensures FindByEmail(db.users, LowerCase(email)).None? ==>
              r == UnknownEmailReply && otps.records == old(otps.records) && outbox.sent == old(outbox.sent)
    ensures FindByEmail(db.users, LowerCase(email)).Some? ==>
              var user := db.users[FindByEmail(db.users, LowerCase(email)).value];
              && otps.records == Create(old(otps.records), user.id, PasswordReset, otpCode, now, otps.expireMinutes)
              && outbox.sent == old(outbox.sent) + [OtpMail(user.email, otpCode)]
              && r == OtpSentReply
    ensures r.success
    ensures old(otps.Valid()) ==> otps.Valid()
  {
    var found := FindByEmail(db.users, LowerCase(email));
    if found.None? {
      return UnknownEmailReply;
    }
    var user := db.users[found.value];
    var otpRecord, code := otps.CreateOtp(user.id, PasswordReset, otpCode, now);
    var _ := outbox.SendOtpEmail(user.email, code);
    r := OtpSentReply;
  }

  /**
   * `resetPassword(email, otp, newPassword)`: "User not found" changes
   * nothing; otherwise the code is checked as a password-reset challenge of
   * that user, and only when it is accepted is the stored password replaced
   * by the digest of the new one.
   */
  method ResetPassword(db: UserTable, otps: OtpTable, email: string, otp: string, newPassword: string, now: int)
    returns (r: Result<Reply, string>)
    modifies db, otps
    ensures FindByEmail(old(db.users), LowerCase(email)).None? ==>
              r == Err(UserNotFound) && db.users == old(db.users) && otps.records == old(otps.records)
    ensures FindByEmail(old(db.users), LowerCase(email)).Some? ==>
              var i := FindByEmail(old(db.users), LowerCase(email)).value;
              var s := Verify(old(otps.records), old(db.users)[i].id, otp, PasswordReset, now);
              && otps.records == s.records
              && (s.result.Err? ==> r == Err(s.result.error.Message()) && db.users == old(db.users))
              && (s.result.Ok? ==>
                    r == Ok(ResetDoneReply) && db.users == old(db.users)[i := old(db.users)[i].(password := Hash(newPassword))])
    ensures old(otps.Valid()) ==> otps.Valid()
    ensures old(db.Valid()) ==> db.Valid()
  {
    var found := FindByEmail(db.users, LowerCase(email));
    if found.None? {
      return Err(UserNotFound);
    }
    var i := found.value;
    var verified := otps.VerifyOtp(db.users[i].id, otp, PasswordReset, now);
    if verified.Err? {
      return Err(verified.error.Message());
    }
    var hashed := Hash(newPassword);
    db.users := db.users[i := db.users[i].(password := hashed)];
    r := Ok(ResetDoneReply);
  }

  /**
   * Only a password-reset challenge can authorise a reset: when the
   * user has no open one, every reset fails, whatever verification
   * challenges are open.
   */
  lemma OnlyResetChallengesReset(rs: seq<OtpRecord>, userId: string, otp: string, now: int)
    requires forall i :: 0 <= i < |rs| && rs[i].userId == userId && !rs[i].used ==> rs[i].otpType != PasswordReset
    ensures Verify(rs, userId, otp, PasswordReset, now) == VerifyStep(rs, Err(NotFound))
  {
  }

  /** Present and non-empty: what `!value` rejects. */
  predicate Given(v: Option<string>) {
    Truthy(v)
  }

  /** The guard of `forgotPassword`: None lets the request through to the service. */
  function ForgotPasswordGuard(email: Option<string>): (r: Option<Failure>)
    ensures r.None? <==> Given(email)
    ensures r.Some? ==> r.value == ErrorResponse("Please provide email", 400)
  {
    if !Given(email) then Some(ErrorResponse("Please provide email", 400)) else None
  }

  /**
   * The guards of `resetPasswordController`: first that all three fields
   * are given, then that the new password has at least eight characters.
   */
  function ResetPasswordGuard(email: Option<string>, otp: Option<string>, newPassword: Option<string>)
    : (r: Option<Failure>)
    ensures r.None? <==> Given(email) && Given(otp) && Given(newPassword) && |newPassword.value| >= 8
    ensures r == Some(ErrorResponse("Please provide email, otp, and newPassword", 400)) <==>
              !(Given(email) && Given(otp) && Given(newPassword))
    ensures r == Some(ErrorResponse("Password must be at least 8 characters", 400)) <==>
              Given(email) && Given(otp) && Given(newPassword) && |newPassword.value| < 8
  {
    if !Given(email) || !Given(otp) || !Given(newPassword) then
      Some(ErrorResponse("Please provide email, otp, and newPassword", 400))
    else if |newPassword.value| < 8 then Some(ErrorResponse("Password must be at least 8 characters", 400))
    else None
  }

  /** `forgotPassword`: the guard, then the service's reply passed on unchanged. */
  method ForgotPassword(db: UserTable, otps: OtpTable, outbox: Outbox, email: Option<string>, otpCode: string, now: int)
    returns (r: Result<Reply, Failure>)
    modifies otps, outbox
    ensures !Given(email) ==>
              && r == Err(ForgotPasswordGuard(email).value)
              && otps.records == old(otps.records) && outbox.sent == old(outbox.sent)
    ensures Given(email) ==>
              r.Ok? && r.value == (if FindByEmail(db.users, LowerCase(email.value)).None? then UnknownEmailReply
                                   else OtpSentReply)
    ensures Given(email) && FindByEmail(db.users, LowerCase(email.value)).None? ==>
              otps.records == old(otps.records) && outbox.sent == old(outbox.sent)
    ensures Given(email) && FindByEmail(db.users, LowerCase(email.value)).Some? ==>
              var user := db.users[FindByEmail(db.users, LowerCase(email.value)).value];
              && otps.records == Create(old(otps.records), user.id, PasswordReset, otpCode, now, otps.expireMinutes)
              && outbox.sent == old(outbox.sent) + [OtpMail(user.email, otpCode)]
    ensures old(otps.Valid()) ==> otps.Valid()
  {
    var guard := ForgotPasswordGuard(email);
    if guard.Some? {
      return Err(guard.value);
    }
    var result := RequestPasswordReset(db, otps, outbox, email.value, otpCode, now);
    r := Ok(Reply(result.success, result.message));
  }

  /** `resetPasswordController`: the guards, then `resetPassword`, whose reply or error is passed on. */
  method ResetPasswordController(db: UserTable, otps: OtpTable, email: Option<string>, otp: Option<string>,
                                 newPassword: Option<string>, now: int)
    returns (r: Result<Reply, Failure>)
    modifies db, otps
    ensures ResetPasswordGuard(email, otp, newPassword).Some? ==>
              && r == Err(ResetPasswordGuard(email, otp, newPassword).value)
              && db.users == old(db.users) && otps.records == old(otps.records)
    ensures ResetPasswordGuard(email, otp, newPassword).None? ==>
              var i := FindByEmail(old(db.users), LowerCase(email.value));
              && (i.None? ==> r == Err(Thrown(UserNotFound)) && db.users == old(db.users) && otps.records == old(otps.records))
              && (i.Some? ==>
                    var s := Verify(old(otps.records), old(db.users)[i.value].id, otp.value, PasswordReset, now);
                    && otps.records == s.records
                    && (s.result.Err? ==> r == Err(Thrown(s.result.error.Message())) && db.users == old(db.users))
                    && (s.result.Ok? ==>
                          && r == Ok(ResetDoneReply)
                          && db.users == old(db.users)[i.value := old(db.users)[i.value].(password := Hash(newPassword.value))]))
    ensures old(otps.Valid()) ==> otps.Valid()
    ensures old(db.Valid()) ==> db.Valid()
  {
    var guard := ResetPasswordGuard(email, otp, newPassword);
    if guard.Some? {
      return Err(guard.value);
    }
    var result := ResetPassword(db, otps, email.value, otp.value, newPassword.value, now);
    if result.Err? {
      return Err(Thrown(result.error));
    }
    r := Ok(Reply(result.value.success, result.value.message));
  }
}
