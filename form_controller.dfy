/**
 * Contact-form submissions (kilimo-backend/src/controllers/formController.js):
 * `submitForm` checks the five fields in a fixed order and stores one row
 * owned by the authenticated user; `getSubmissions` lists that user's rows,
 * newest first.
 */
module FormController {
  import opened Common
  import opened Patterns
  import opened Http

  /** The fields of `req.body`; None for a field that is absent. */
  datatype FormBody = FormBody(
    firstName: Option<string>,
    lastName: Option<string>,
    email: Option<string>,
    phone: Option<string>,
    message: Option<string>)

  /** A row of `formSubmission`; `id` is its position, so a larger id is a newer row. */
  datatype Submission = Submission(
    id: nat,
    userId: string,
    firstName: string,
    lastName: string,
    email: string,
    phone: string,
    message: string)

  predicate AllGiven(b: FormBody) {
    Truthy(b.firstName) && Truthy(b.lastName) && Truthy(b.email) && Truthy(b.phone) && Truthy(b.message)
  }

  /** The server's phone pattern `/^(\+?254|0)?[7]\d{8}$/`. */
  predicate ServerPhone(phone: string) {
    PhoneRegex(phone, {'7'})
  }

  /**
   * The validation chain of `submitForm`: presence, e-mail pattern, phone
   * pattern, message length; the first check that fails is reported.
   */
  function CheckForm(b: FormBody): (r: Option<Failure>)
    ensures r.None? <==>
              && AllGiven(b) && EmailRegex(b.email.value) && ServerPhone(b.phone.value)
              && |b.message.value| >= 10
    ensures !AllGiven(b) ==> r == Some(ErrorResponse("Please provide all required fields", 400))
    ensures AllGiven(b) && !EmailRegex(b.email.value) ==> r == Some(ErrorResponse("Invalid email format", 400))
    ensures AllGiven(b) && EmailRegex(b.email.value) && !ServerPhone(b.phone.value) ==>
              r == Some(ErrorResponse("Invalid phone number format", 400))
    ensures AllGiven(b) && EmailRegex(b.email.value) && ServerPhone(b.phone.value) && |b.message.value| < 10 ==>
              r == Some(ErrorResponse("Message must be at least 10 characters", 400))
  {
    if !AllGiven(b) then Some(ErrorResponse("Please provide all required fields", 400))
    else if !MatchesEmail(b.email.value) then Some(ErrorResponse("Invalid email format", 400))
    else if !ServerPhone(b.phone.value) then Some(ErrorResponse("Invalid phone number format", 400))
    else if |b.message.value| < 10 then Some(ErrorResponse("Message must be at least 10 characters", 400))
    else None
  }

  /** Rows are numbered by position. */
  predicate IdsArePositions(subs: seq<Submission>) {
    forall k :: 0 <= k < |subs| ==> subs[k].id == k
  }

  class SubmissionTable {
    var submissions: seq<Submission>

    ghost predicate Valid()
      reads this
    {
      IdsArePositions(submissions)
    }

    constructor ()
      ensures submissions == [] && Valid()
    {
      submissions := [];
    }
  }

  /**
   * `submitForm` for the authenticated user `userId`: a failed check
   * stores nothing; otherwise exactly one row holding the five fields and
   * owned by the user is appended and returned.
   */
  method SubmitForm(table: SubmissionTable, userId: string, b: FormBody) returns (r: Result<Submission, Failure>)
    modifies table
    ensures CheckForm(b).Some? ==> r == Err(CheckForm(b).value) && table.submissions == old(table.submissions)
    ensures CheckForm(b).None? ==>
              && r.Ok?
              && table.submissions == old(table.submissions) + [r.value]
              && r.value == Submission(|old(table.submissions)|, userId, b.firstName.value, b.lastName.value,
                                       b.email.value, b.phone.value, b.message.value)
    ensures old(table.Valid()) ==> table.Valid()
  {
    var failure := CheckForm(b);
    if failure.Some? {
      return Err(failure.value);
    }
    var submission := Submission(|table.submissions|, userId, b.firstName.value, b.lastName.value,
                                 b.email.value, b.phone.value, b.message.value);
    table.submissions := table.submissions + [submission];
    r := Ok(submission);
  }

  /**
   * `getSubmissions` for `userId`: exactly the user's rows, each once,
   * newest first.
   */
  function GetSubmissions(subs: seq<Submission>, userId: string): (r: seq<Submission>)
    ensures |r| <= |subs|
    ensures forall x :: x in r <==> x in subs && x.userId == userId
    ensures IdsArePositions(subs) ==> forall i, j :: 0 <= i < j < |r| ==> r[i].id > r[j].id
  {
    if |subs| == 0 then []
    else
      var older := subs[..|subs| - 1];
      var last := subs[|subs| - 1];
      assert subs == older + [last];
      assert IdsArePositions(subs) ==> IdsArePositions(older) && forall x :: x in older ==> x.id < last.id;
      if last.userId == userId then [last] + GetSubmissions(older, userId)
      else GetSubmissions(older, userId)
  }

  /** A row stored by `submitForm` is listed first for its owner. */
  lemma SubmittedIsListedFirst(subs: seq<Submission>, s: Submission)
    ensures GetSubmissions(subs + [s], s.userId) == [s] + GetSubmissions(subs, s.userId)
  {
    assert (subs + [s])[..|subs|] == subs;
  }

  /** A row stored for one user never appears in another user's list. */
  lemma SubmissionsAreScoped(subs: seq<Submission>, s: Submission, other: string)
    requires other != s.userId
    ensures GetSubmissions(subs + [s], other) == GetSubmissions(subs, other)
  {
    assert (subs + [s])[..|subs|] == subs;
  }
}
