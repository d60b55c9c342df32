/**
 * The client-side input validators of the mobile app
 * (KilimoMobileApp/src/utils/validation.ts).
 */
module Validation {
  import opened JsText
  import opened Patterns

  /** `validateEmail` */
  function ValidateEmail(email: string): (r: bool)
    ensures r <==> EmailRegex(email)
  {
    MatchesEmail(email)
  }

  /** An accepted address has exactly one `@`, something before it, and no whitespace at all. */
  lemma ValidEmailShape(email: string)
    requires ValidateEmail(email)
    ensures exists at ::
              && 0 < at < |email| && email[at] == '@'
              && forall k :: 0 <= k < |email| && k != at ==> email[k] != '@'
    ensures forall k :: 0 <= k < |email| ==> !IsSpace(email[k])
  {
    var at, dot :| 0 <= at < dot < |email| && email[at] == '@' && email[dot] == '.'
      && Segment(email, 0, at) && Segment(email, at + 1, dot) && Segment(email, dot + 1, |email|);
    assert 0 < at;
  }

  /** `validatePhone`: whitespace is removed, then the Kenyan pattern with `[17]` must match. */
  function ValidatePhone(phone: string): (r: bool)
    ensures r ==> var s := RemoveSpaces(phone);
      && |s| in {9, 10, 12, 13} && (s[|s| - 9] == '1' || s[|s| - 9] == '7') && AllDigits(s[|s| - 8..])
    ensures r ==> var s := RemoveSpaces(phone);
      forall k :: 0 <= k < |s| ==> !IsSpace(s[k])
  {
    PhoneRegex(RemoveSpaces(phone), {'1', '7'})
  }

  /** Inserting a whitespace character anywhere never changes the verdict of `validatePhone`. */
  lemma ValidatePhoneIgnoresSpace(a: string, b: string, space: char)
    requires IsSpace(space)
    ensures ValidatePhone(a + [space] + b) == ValidatePhone(a + b)
  {
    RemoveSpacesDropsSpace(a, b, space);
  }

  lemma RemoveSpacesDropsSpace(a: string, b: string, space: char)
    requires IsSpace(space)
    ensures RemoveSpaces(a + [space] + b) == RemoveSpaces(a + b)
  {
    var withSpace := a + [space];
    FilterAppend(withSpace, b, IsNonSpace);
    FilterAppend(a, [space], IsNonSpace);
    FilterAppend(a, b, IsNonSpace);
    assert [space][1..] == [];
    assert Filter([space], IsNonSpace) == Filter([], IsNonSpace) == [];
    assert Filter(withSpace, IsNonSpace) == Filter(a, IsNonSpace);
  }

  /** The messages of `validatePassword`, in the order its rules are checked. */
  const PasswordMessages: seq<string> := [
    "Password must be at least 8 characters long",
    "Password must contain at least one uppercase letter",
    "Password must contain at least one lowercase letter",
    "Password must contain at least one number",
    "Password must contain at least one special character"
  ]

  /** `[!@#$%^&*(),.?":{}|<>]` */
  predicate IsSpecial(c: char) {
    c in "!@#$%^&*(),.?\":{}|<>"
  }

  predicate Contains(s: string, p: char -> bool) {
    exists i :: 0 <= i < |s| && p(s[i])
  }

  /** Whether rule `k` of `validatePassword` rejects the password. */
  predicate RuleFails(password: string, k: nat)
    requires k < 5
  {
    match k
    case 0 => |password| < 8
    case 1 => !Contains(password, IsUpper)
    case 2 => !Contains(password, IsLower)
    case 3 => !Contains(password, IsDigit)
    case 4 => !Contains(password, IsSpecial)
  }

  lemma PasswordMessagesDistinct()
    ensures forall i, j :: 0 <= i < j < 5 ==> PasswordMessages[i] != PasswordMessages[j]
  {
    assert |PasswordMessages[0]| == 43 && |PasswordMessages[3]| == 41 && |PasswordMessages[4]| == 52;
    assert |PasswordMessages[1]| == 51 && |PasswordMessages[2]| == 51;
    assert PasswordMessages[1][35] == 'u' && PasswordMessages[2][35] == 'l';
  }

  /** The messages of the rules from `k` on that reject the password, in rule order. */
  function FailedMessages(password: string, k: nat): seq<string>
    requires k <= 5
    decreases 5 - k
  {
    if k == 5 then [] else Reported(password, k) + FailedMessages(password, k + 1)
  }

  /** The message rule `k` contributes: its own when it fails, none otherwise. */
  function Reported(password: string, k: nat): seq<string>
    requires k < 5
  {
    if RuleFails(password, k) then [PasswordMessages[k]] else []
  }

  lemma FailedMessagesUnfolded(password: string)
    ensures FailedMessages(password, 0) == Reported(password, 0) + Reported(password, 1) + Reported(password, 2)
      + Reported(password, 3) + Reported(password, 4)
  {
    FailedMessagesStep(password, 0);
    FailedMessagesStep(password, 1);
    FailedMessagesStep(password, 2);
    FailedMessagesStep(password, 3);
    FailedMessagesStep(password, 4);
    ConcatFive(Reported(password, 0), Reported(password, 1), Reported(password, 2),
      Reported(password, 3), Reported(password, 4));
  }

  /** One rule's step of `FailedMessages`. */
  lemma FailedMessagesStep(password: string, k: nat)
    requires k < 5
    ensures FailedMessages(password, k) == Reported(password, k) + FailedMessages(password, k + 1)
  {
  }

  lemma ConcatFive(r0: seq<string>, r1: seq<string>, r2: seq<string>, r3: seq<string>, r4: seq<string>)
    ensures r0 + (r1 + (r2 + (r3 + (r4 + [])))) == r0 + r1 + r2 + r3 + r4
  {
    assert r4 + [] == r4;
  }

  /** At most one message per rule, and a rule's message is listed exactly when the rule fails. */
  lemma {:induction false} FailedMessagesSpec(password: string, k: nat)
    requires k <= 5
    ensures |FailedMessages(password, k)| <= 5 - k
    ensures forall e :: e in FailedMessages(password, k) ==> e in PasswordMessages[k..]
    ensures forall j :: k <= j < 5 ==> (PasswordMessages[j] in FailedMessages(password, k) <==> RuleFails(password, j))
    decreases 5 - k
  {
    if k < 5 {
      FailedMessagesSpec(password, k + 1);
      NotListedLater(k);
      assert PasswordMessages[k..] == [PasswordMessages[k]] + PasswordMessages[k + 1..];
    }
  }

  /** A rule's message is not among the messages of the rules after it. */
  lemma NotListedLater(k: nat)
    requires k < 5
    ensures PasswordMessages[k] !in PasswordMessages[k + 1..]
  {
    PasswordMessagesDistinct();
    var later := PasswordMessages[k + 1..];
    forall i | 0 <= i < |later|
      ensures later[i] != PasswordMessages[k]
    {
      assert later[i] == PasswordMessages[k + 1 + i];
    }
  }

  /**
   * `validatePassword`: one message per failed rule, pushed in the order
   * the rules are checked; valid exactly when no message was pushed.
   */
  method ValidatePassword(password: string) returns (isValid: bool, errors: seq<string>)
    ensures errors == FailedMessages(password, 0)
    ensures isValid <==> errors == []
    ensures isValid <==> forall k :: 0 <= k < 5 ==> !RuleFails(password, k)
  {
    errors := [];
    if |password| < 8 {
      errors := errors + [PasswordMessages[0]];
    }
    assert errors == Reported(password, 0);
    if !Contains(password, IsUpper) {
      errors := errors + [PasswordMessages[1]];
    }
    assert errors == Reported(password, 0) + Reported(password, 1);
    if !Contains(password, IsLower) {
      errors := errors + [PasswordMessages[2]];
    }
    assert errors == Reported(password, 0) + Reported(password, 1) + Reported(password, 2);
    if !Contains(password, IsDigit) {
      errors := errors + [PasswordMessages[3]];
    }
    assert errors == Reported(password, 0) + Reported(password, 1) + Reported(password, 2) + Reported(password, 3);
    if !Contains(password, IsSpecial) {
      errors := errors + [PasswordMessages[4]];
    }
    assert errors == Reported(password, 0) + Reported(password, 1) + Reported(password, 2) + Reported(password, 3)
      + Reported(password, 4);
    isValid := |errors| == 0;
    FailedMessagesUnfolded(password);
    FailedMessagesSpec(password, 0);
  }

  /** `validateOTP` */
  function ValidateOtp(otp: string): (r: bool)
    ensures r <==> |otp| == 6 && forall k :: 0 <= k < |otp| ==> '0' <= otp[k] <= '9'
  {
    SixDigits(otp)
  }

  /** `/^[a-zA-Z\s]+$/` */
  predicate NameRegex(name: string) {
    |name| >= 1 && forall i :: 0 <= i < |name| ==> IsAsciiLetter(name[i]) || IsSpace(name[i])
  }

  /** `validateFullName`: at least two characters once trimmed, and letters and whitespace only. */
  function ValidateFullName(name: string): (r: bool)
    ensures r ==> |name| >= 2 && forall k :: 0 <= k < |name| ==> IsAsciiLetter(name[k]) || IsSpace(name[k])
  {
    |Trim(name)| >= 2 && NameRegex(name)
  }

  /** An accepted full name contains at least two ASCII letters. */
  lemma FullNameHasTwoLetters(name: string)
    requires ValidateFullName(name)
    ensures exists i, j :: 0 <= i < j < |name| && IsAsciiLetter(name[i]) && IsAsciiLetter(name[j])
  {
    assert |Trim(name)| >= 2 && NameRegex(name);
    var i, j := TrimmedEnds(name);
    assert IsAsciiLetter(name[i]) && IsAsciiLetter(name[j]);
  }

  /** The first and last characters that trimming keeps are not white space. */
  lemma TrimmedEnds(name: string) returns (i: nat, j: nat)
    requires |Trim(name)| >= 2
    ensures i < j < |name| && !IsSpace(name[i]) && !IsSpace(name[j])
  {
    var front := TrimStart(name);
    var t := TrimEnd(front);
    i := |name| - |front|;
    j := i + |t| - 1;
    assert t[0] == front[0] == name[i];
    assert t[|t| - 1] == front[|t| - 1] == name[j];
  }
}
