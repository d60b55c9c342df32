/**
 * The request schemas of the backend and the middleware that applies them
 * (kilimo-backend/src/middleware/validation.js). A schema is a list of
 * string fields, each with its checks in declaration order; parsing
 * reports, field by field, "Required" for an absent field and otherwise
 * the message of every check the value fails. The middleware lets a
 * request through exactly when that list is empty, and otherwise answers
 * 400 with its first message.
 */
module Schemas {
  import opened Common
  import opened Patterns
  import opened Http
  import FormController

  /** The two regular expressions the schemas use. */
  datatype Pattern = KenyanPhone | SixDigitCode

  /** `.min(n, message)`, `.max(n, message)`, `.email(message)`, `.regex(pattern, message)` */
  datatype Check =
    | Min(n: nat, message: string)
    | Max(n: nat, message: string)
    | Email(message: string)
    | Matches(pattern: Pattern, message: string)

  datatype Field = Field(name: string, checks: seq<Check>)

  /** A request body: the fields that are present, by name. */
  type Body = map<string, string>

  const FormSchema: seq<Field> := [
    Field("firstName", [Min(2, "First name must be at least 2 characters")]),
    Field("lastName", [Min(2, "Last name must be at least 2 characters")]),
    Field("email", [Email("Invalid email address")]),
    Field("phone", [Matches(KenyanPhone, "Invalid Kenyan phone number")]),
    Field("message", [Min(10, "Message must be at least 10 characters"), Max(1000, "Message is too long")])
  ]

  const RegisterSchema: seq<Field> := [
    Field("email", [Email("Invalid email address")]),
    Field("password", [Min(8, "Password must be at least 8 characters")])
  ]

  const LoginSchema: seq<Field> := [
    Field("email", [Email("Invalid email address")]),
    Field("password", [Min(1, "Password is required")])
  ]

  const OtpSchema: seq<Field> := [
    Field("userId", [Min(1, "Invalid user ID")]),
    Field("otp", [Matches(SixDigitCode, "OTP must be 6 digits")])
  ]

  /** Whether `value` fails the check; `isEmail` stands for the schema library's e-mail test. */
  predicate Fails(c: Check, value: string, isEmail: string -> bool) {
    match c
    case Min(n, _) => |value| < n
    case Max(n, _) => |value| > n
    case Email(_) => !isEmail(value)
    case Matches(KenyanPhone, _) => !PhoneRegex(value, {'7'})
    case Matches(SixDigitCode, _) => !SixDigits(value)
  }

  /** The messages of the checks the value fails, in order. */
  function CheckIssues(checks: seq<Check>, value: string, isEmail: string -> bool): seq<string> {
    if |checks| == 0 then []
    else (if Fails(checks[0], value, isEmail) then [checks[0].message] else [])
         + CheckIssues(checks[1..], value, isEmail)
  }

  function FieldIssues(f: Field, body: Body, isEmail: string -> bool): seq<string> {
    if f.name !in body then ["Required"] else CheckIssues(f.checks, body[f.name], isEmail)
  }

  /** The issues `schema.parse(body)` reports, field by field. */
  function Issues(schema: seq<Field>, body: Body, isEmail: string -> bool): seq<string> {
    if |schema| == 0 then [] else FieldIssues(schema[0], body, isEmail) + Issues(schema[1..], body, isEmail)
  }

  /** The field is present and passes every one of its checks. */
  predicate FieldOk(f: Field, body: Body, isEmail: string -> bool) {
    f.name in body && forall j :: 0 <= j < |f.checks| ==> !Fails(f.checks[j], body[f.name], isEmail)
  }

  lemma FieldOkOne(name: string, c: Check, body: Body, isEmail: string -> bool)
    ensures FieldOk(Field(name, [c]), body, isEmail) <==> name in body && !Fails(c, body[name], isEmail)
  {
    assert [c][0] == c;
  }

  lemma FieldOkTwo(name: string, c: Check, d: Check, body: Body, isEmail: string -> bool)
    ensures FieldOk(Field(name, [c, d]), body, isEmail) <==>
              name in body && !Fails(c, body[name], isEmail) && !Fails(d, body[name], isEmail)
  {
    assert [c, d][0] == c && [c, d][1] == d;
  }

  /** The schema's constraints, stated directly: every field present and passing every check. */
  predicate Accepts(schema: seq<Field>, body: Body, isEmail: string -> bool) {
    forall k :: 0 <= k < |schema| ==> FieldOk(schema[k], body, isEmail)
  }

  /**
   * `validate(schema)`: None when control passes on to the handler,
   * otherwise the error passed to `next`.
   */
  function Validate(schema: seq<Field>, body: Body, isEmail: string -> bool): (r: Option<Failure>)
    ensures r.Some? ==> r.value.ErrorResponse? && r.value.status == 400 && r.value.message != ""
  {
    var issues := Issues(schema, body, isEmail);
    if issues == [] then None
    else Some(ErrorResponse(if issues[0] != "" then issues[0] else "Validation failed", 400))
  }

  lemma {:induction false} CheckIssuesEmpty(checks: seq<Check>, value: string, isEmail: string -> bool)
    ensures CheckIssues(checks, value, isEmail) == [] <==>
              forall j :: 0 <= j < |checks| ==> !Fails(checks[j], value, isEmail)
  {
    if |checks| > 0 {
      CheckIssuesEmpty(checks[1..], value, isEmail);
      assert forall j :: 1 <= j < |checks| ==> checks[j] == checks[1..][j - 1];
    }
  }

  lemma {:induction false} IssuesEmpty(schema: seq<Field>, body: Body, isEmail: string -> bool)
    ensures Issues(schema, body, isEmail) == [] <==> Accepts(schema, body, isEmail)
  {
    if |schema| > 0 {
      IssuesEmpty(schema[1..], body, isEmail);
      if schema[0].name in body {
        CheckIssuesEmpty(schema[0].checks, body[schema[0].name], isEmail);
      }
      assert forall k :: 1 <= k < |schema| ==> schema[k] == schema[1..][k - 1];
    }
  }

  /** The middleware passes the request on exactly when the schema's constraints hold. */
  lemma ValidatePassesIff(schema: seq<Field>, body: Body, isEmail: string -> bool)
    ensures Validate(schema, body, isEmail).None? <==> Accepts(schema, body, isEmail)
  {
    IssuesEmpty(schema, body, isEmail);
  }

  /** The constraints of `formSchema`. */
  lemma FormSchemaConstraints(body: Body, isEmail: string -> bool)
    ensures Accepts(FormSchema, body, isEmail) <==>
              && "firstName" in body && |body["firstName"]| >= 2
              && "lastName" in body && |body["lastName"]| >= 2
              && "email" in body && isEmail(body["email"])
              && "phone" in body && PhoneRegex(body["phone"], {'7'})
              && "message" in body && 10 <= |body["message"]| <= 1000
  {
    FieldOkOne("firstName", Min(2, "First name must be at least 2 characters"), body, isEmail);
    FieldOkOne("lastName", Min(2, "Last name must be at least 2 characters"), body, isEmail);
    FieldOkOne("email", Email("Invalid email address"), body, isEmail);
    FieldOkOne("phone", Matches(KenyanPhone, "Invalid Kenyan phone number"), body, isEmail);
    FieldOkTwo("message", Min(10, "Message must be at least 10 characters"), Max(1000, "Message is too long"),
               body, isEmail);
    var s := FormSchema;
    assert Accepts(s, body, isEmail) <==>
      FieldOk(s[0], body, isEmail) && FieldOk(s[1], body, isEmail) && FieldOk(s[2], body, isEmail)
      && FieldOk(s[3], body, isEmail) && FieldOk(s[4], body, isEmail);
  }

  /** The constraints of `registerSchema`, `loginSchema` and `otpSchema`. */
  lemma AccountSchemaConstraints(body: Body, isEmail: string -> bool)
    ensures Accepts(RegisterSchema, body, isEmail) <==>
              "email" in body && isEmail(body["email"]) && "password" in body && |body["password"]| >= 8
    ensures Accepts(LoginSchema, body, isEmail) <==>
              "email" in body && isEmail(body["email"]) && "password" in body && |body["password"]| >= 1
    ensures Accepts(OtpSchema, body, isEmail) <==>
              "userId" in body && |body["userId"]| >= 1 && "otp" in body && SixDigits(body["otp"])
  {
    FieldOkOne("email", Email("Invalid email address"), body, isEmail);
    FieldOkOne("password", Min(8, "Password must be at least 8 characters"), body, isEmail);
    FieldOkOne("password", Min(1, "Password is required"), body, isEmail);
    FieldOkOne("userId", Min(1, "Invalid user ID"), body, isEmail);
    FieldOkOne("otp", Matches(SixDigitCode, "OTP must be 6 digits"), body, isEmail);
    assert Accepts(RegisterSchema, body, isEmail) <==>
      FieldOk(RegisterSchema[0], body, isEmail) && FieldOk(RegisterSchema[1], body, isEmail);
    assert Accepts(LoginSchema, body, isEmail) <==>
      FieldOk(LoginSchema[0], body, isEmail) && FieldOk(LoginSchema[1], body, isEmail);
    assert Accepts(OtpSchema, body, isEmail) <==>
      FieldOk(OtpSchema[0], body, isEmail) && FieldOk(OtpSchema[1], body, isEmail);
  }

  /** A first name that is too short is the first thing reported, whatever else is wrong. */
  lemma ShortFirstNameReportedFirst(body: Body, isEmail: string -> bool)
    requires "firstName" in body && |body["firstName"]| < 2
    ensures Validate(FormSchema, body, isEmail) == Some(ErrorResponse("First name must be at least 2 characters", 400))
  {
    assert Issues(FormSchema, body, isEmail)[0] == "First name must be at least 2 characters";
  }

  /**
   * A body that passes `formSchema` also passes the checks of `submitForm`,
   * provided the library's e-mail test is at least as strict as the
   * controller's pattern.
   */
  lemma FormSchemaImpliesControllerChecks(body: Body, isEmail: string -> bool)
    requires forall e :: isEmail(e) ==> EmailRegex(e)
    requires Validate(FormSchema, body, isEmail).None?
    ensures "firstName" in body && "lastName" in body && "email" in body && "phone" in body && "message" in body
    ensures FormController.CheckForm(FormController.FormBody(
              Some(body["firstName"]), Some(body["lastName"]), Some(body["email"]),
              Some(body["phone"]), Some(body["message"]))).None?
  {
    ValidatePassesIff(FormSchema, body, isEmail);
    FormSchemaConstraints(body, isEmail);
    PhoneLength(body["phone"], {'7'});
  }
}
