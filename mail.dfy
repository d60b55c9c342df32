/**
 * `sendOTPEmail` (kilimo-backend/src/services/emailService.js) as a
 * notifier: both of its paths, the SMTP send and the console fallback,
 * report success, so the model only records what was sent.
 */
module Mail {
  datatype OtpMail = OtpMail(to: string, code: string)

  class Outbox {
    var sent: seq<OtpMail>

    constructor ()
      ensures sent == []
    {
      sent := [];
    }

    /** `sendOTPEmail(to, otp)` */
    method SendOtpEmail(to: string, otp: string) returns (success: bool)
      modifies this
      ensures sent == old(sent) + [OtpMail(to, otp)]
      ensures success
    {
      sent := sent + [OtpMail(to, otp)];
      success := true;
    }
  }
}
