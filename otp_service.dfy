/**
 * The one-time-code challenges of the backend
 * (kilimo-backend/src/services/otpService.js): `createOTP` retires the open
 * challenges of a user and kind and stores a fresh one; `verifyOTP` checks a
 * submitted code against the newest open challenge, in a fixed order:
 * existence, expiry, attempt limit, then the hash.
 *
 * The `oTP` table is a sequence of records whose position is the record's
 * id; `Create` and `Verify` say what one call does to it, and the class
 * `OtpTable` performs the same steps in place.
 */
module OtpService {
  import opened Common
  import opened Crypto

  /** The `type` column: "VERIFICATION" or "PASSWORD_RESET". */
  datatype OtpType = Verification | PasswordReset

  /** A row of the `oTP` table; times are milliseconds since the epoch. */
  datatype OtpRecord = OtpRecord(
    id: nat,
    userId: string,
    code: Digest,
    otpType: OtpType,
    expiresAt: int,
    attempts: nat,
    maxAttempts: nat,
    used: bool,
    createdAt: int)

  /** Why `verifyOTP` throws, with the message it throws. */
  datatype OtpError = NotFound | Expired | AttemptsExceeded | InvalidCode {
    function Message(): string {
      match this
      case NotFound => "Invalid or expired OTP"
      case Expired => "OTP has expired"
      case AttemptsExceeded => "Maximum OTP attempts exceeded"
      case InvalidCode => "Invalid OTP code"
    }
  }

  const MaxAttempts: nat := 3
  const DefaultExpireMinutes: int := 2

  /**
   * `parseInt(process.env.OTP_EXPIRE_MINUTES) || 2`, where None stands for
   * an unset variable or a value that parses to NaN.
   */
  function ExpireMinutes(configured: Option<int>): (m: int)
    ensures m != 0
    ensures configured.Some? && configured.value != 0 ==> m == configured.value
    ensures configured.None? || configured.value == 0 ==> m == DefaultExpireMinutes
  {
    if configured.Some? && configured.value != 0 then configured.value else DefaultExpireMinutes
  }

  /** Matched by the filter `{ userId, type, used: false }`. */
  predicate Active(r: OtpRecord, userId: string, t: OtpType) {
    r.userId == userId && r.otpType == t && !r.used
  }

  /** The `updateMany` of `createOTP`: every open challenge of the user and kind is marked used. */
  function Invalidate(rs: seq<OtpRecord>, userId: string, t: OtpType): (r: seq<OtpRecord>)
    ensures |r| == |rs|
    ensures forall i :: 0 <= i < |r| ==> !Active(r[i], userId, t)
    ensures forall i :: 0 <= i < |rs| && !Active(rs[i], userId, t) ==> r[i] == rs[i]
    ensures forall i :: 0 <= i < |rs| ==> r[i] == rs[i].(used := r[i].used) && (rs[i].used ==> r[i].used)
  {
    seq(|rs|, i requires 0 <= i < |rs| => if Active(rs[i], userId, t) then rs[i].(used := true) else rs[i])
  }

  /**
   * The table after `createOTP(userId, t)` at time `now` when the generator
   * produced `otpCode`: the open challenges are retired and a new record is
   * appended with no attempts, three allowed, the digest of the code and
   * the configured lifetime.
   */
  function Create(rs: seq<OtpRecord>, userId: string, t: OtpType, otpCode: string, now: int, minutes: int)
    : (r: seq<OtpRecord>)
    ensures |r| == |rs| + 1 && r[..|rs|] == Invalidate(rs, userId, t)
    ensures var n := r[|rs|];
      && n.id == |rs| && n.userId == userId && n.otpType == t && Compare(otpCode, n.code)
      && n.attempts == 0 && n.maxAttempts == MaxAttempts && !n.used
      && n.expiresAt == now + minutes * 60000 && n.createdAt == now
    ensures Evolves(rs, r)
  {
    Invalidate(rs, userId, t)
      + [OtpRecord(|rs|, userId, Hash(otpCode), t, now + minutes * 60 * 1000, 0, MaxAttempts, false, now)]
  }

  /**
   * The `findFirst` of `verifyOTP`: the newest open challenge of the user
   * and kind. Records are appended in creation order, so the newest is the
   * one with the greatest position.
   */
  function FindActive(rs: seq<OtpRecord>, userId: string, t: OtpType): (r: Option<nat>)
    ensures r.Some? ==>
              && r.value < |rs| && Active(rs[r.value], userId, t)
              && forall j :: r.value < j < |rs| ==> !Active(rs[j], userId, t)
    ensures r.None? ==> forall j :: 0 <= j < |rs| ==> !Active(rs[j], userId, t)
  {
    if |rs| == 0 then None
    else if Active(rs[|rs| - 1], userId, t) then Some(|rs| - 1)
    else FindActive(rs[..|rs| - 1], userId, t)
  }

  /** The table after one call of `verifyOTP`, and what the call returned or threw. */
  datatype VerifyStep = VerifyStep(records: seq<OtpRecord>, result: Result<bool, OtpError>)

  /**
   * `verifyOTP(userId, otpCode, t)` at time `now`. Only the record found may
   * change; expiry is checked before the attempt limit, and the hash only
   * after both.
   */
  function Verify(rs: seq<OtpRecord>, userId: string, otpCode: string, t: OtpType, now: int): (s: VerifyStep)
    ensures |s.records| == |rs|
    ensures forall j :: 0 <= j < |rs| && FindActive(rs, userId, t) != Some(j) ==> s.records[j] == rs[j]
    ensures FindActive(rs, userId, t).None? ==> s == VerifyStep(rs, Err(NotFound))
    ensures FindActive(rs, userId, t).Some? ==>
              var i := FindActive(rs, userId, t).value;
              && (now > rs[i].expiresAt ==> s == VerifyStep(rs[i := rs[i].(used := true)], Err(Expired)))
              && (now <= rs[i].expiresAt && rs[i].attempts >= rs[i].maxAttempts ==>
                    s == VerifyStep(rs[i := rs[i].(used := true)], Err(AttemptsExceeded)))
              && (now <= rs[i].expiresAt && rs[i].attempts < rs[i].maxAttempts && !Compare(otpCode, rs[i].code) ==>
                    s == VerifyStep(rs[i := rs[i].(attempts := rs[i].attempts + 1,
                                                   used := rs[i].attempts + 1 >= rs[i].maxAttempts)], Err(InvalidCode)))
              && (s.result == Err(AttemptsExceeded) ==> now <= rs[i].expiresAt && s.records[i].used)
              && (s.result == Err(InvalidCode) ==>
                    && now <= rs[i].expiresAt && rs[i].attempts < rs[i].maxAttempts
                    && !Compare(otpCode, rs[i].code)
                    && s.records[i] == rs[i].(attempts := rs[i].attempts + 1,
                                              used := rs[i].attempts + 1 >= rs[i].maxAttempts))
              && (s.result.Ok? <==>
                    now <= rs[i].expiresAt && rs[i].attempts < rs[i].maxAttempts && Compare(otpCode, rs[i].code))
              && (s.result.Ok? ==> s.result.value && s.records[i] == rs[i].(used := true))
    ensures Evolves(rs, s.records)
  {
    match FindActive(rs, userId, t)
    case None => VerifyStep(rs, Err(NotFound))
    case Some(i) =>
      var r := rs[i];
      if now > r.expiresAt then VerifyStep(rs[i := r.(used := true)], Err(Expired))
      else if r.attempts >= r.maxAttempts then VerifyStep(rs[i := r.(used := true)], Err(AttemptsExceeded))
      else if !Compare(otpCode, r.code) then
        VerifyStep(rs[i := r.(attempts := r.attempts + 1, used := r.attempts + 1 >= r.maxAttempts)], Err(InvalidCode))
      else VerifyStep(rs[i := r.(used := true)], Ok(true))
  }

  /**
   * How a table may change: rows are only appended; a row keeps its owner,
   * kind, digest and expiry; `used` never goes back to false and `attempts`
   * never decreases.
   */
  predicate Evolves(before: seq<OtpRecord>, after: seq<OtpRecord>) {
    && |before| <= |after|
    && forall i :: 0 <= i < |before| ==>
         && after[i].id == before[i].id && after[i].userId == before[i].userId
         && after[i].otpType == before[i].otpType && after[i].code == before[i].code
         && after[i].expiresAt == before[i].expiresAt && after[i].maxAttempts == before[i].maxAttempts
         && (before[i].used ==> after[i].used) && before[i].attempts <= after[i].attempts
  }

  lemma EvolvesTransitive(a: seq<OtpRecord>, b: seq<OtpRecord>, c: seq<OtpRecord>)
    requires Evolves(a, b) && Evolves(b, c)
    ensures Evolves(a, c)
  {
  }

  /** A row as the service writes it: id = position, three attempts allowed, used once exhausted. */
  predicate RecordValid(r: OtpRecord, position: nat) {
    && r.id == position
    && r.maxAttempts == MaxAttempts
    && r.attempts <= r.maxAttempts
    && (r.attempts >= r.maxAttempts ==> r.used)
  }

  /**
   * The invariant of the table: every row is well formed, and a user has at
   * most one open challenge of each kind.
   */
  predicate TableValid(rs: seq<OtpRecord>) {
    && (forall i :: 0 <= i < |rs| ==> RecordValid(rs[i], i))
    && forall i, j :: 0 <= i < j < |rs| && !rs[i].used && !rs[j].used ==>
         rs[i].userId != rs[j].userId || rs[i].otpType != rs[j].otpType
  }

  /** In a valid table an open challenge is the only one of its user and kind, so `findFirst` finds it. */
  lemma UniqueActive(rs: seq<OtpRecord>, i: nat, userId: string, t: OtpType)
    requires TableValid(rs) && i < |rs| && Active(rs[i], userId, t)
    ensures forall j :: 0 <= j < |rs| && j != i ==> !Active(rs[j], userId, t)
    ensures FindActive(rs, userId, t) == Some(i)
  {
    forall j | 0 <= j < |rs| && j != i
      ensures !Active(rs[j], userId, t)
    {
      if j < i {
        assert rs[j].userId != rs[i].userId || rs[j].otpType != rs[i].otpType || rs[j].used;
      } else {
        assert rs[i].userId != rs[j].userId || rs[i].otpType != rs[j].otpType || rs[j].used;
      }
    }
  }

  /** `createOTP` keeps the table valid. */
  lemma CreateValid(rs: seq<OtpRecord>, userId: string, t: OtpType, otpCode: string, now: int, minutes: int)
    requires TableValid(rs)
    ensures TableValid(Create(rs, userId, t, otpCode, now, minutes))
  {
    var r := Create(rs, userId, t, otpCode, now, minutes);
    assert forall i :: 0 <= i < |rs| ==> r[i] == Invalidate(rs, userId, t)[i];
    forall i, j | 0 <= i < j < |r| && !r[i].used && !r[j].used
      ensures r[i].userId != r[j].userId || r[i].otpType != r[j].otpType
    {
      if j == |rs| {
        assert !Active(r[i], userId, t);
      } else {
        assert r[i] == rs[i] && r[j] == rs[j];
      }
    }
  }

  /**
   * After `createOTP` the new record is the only open challenge of its user
   * and kind, and `verifyOTP` will look at it; the rows of every other
   * user or kind are untouched.
   */
  lemma CreateLeavesOnlyNew(rs: seq<OtpRecord>, userId: string, t: OtpType, otpCode: string, now: int, minutes: int)
    ensures var r := Create(rs, userId, t, otpCode, now, minutes);
      && FindActive(r, userId, t) == Some(|rs|)
      && (forall j :: 0 <= j < |rs| ==> !Active(r[j], userId, t))
      && forall j :: 0 <= j < |rs| && (rs[j].userId != userId || rs[j].otpType != t) ==> r[j] == rs[j]
  {
    var r := Create(rs, userId, t, otpCode, now, minutes);
    assert forall j :: 0 <= j < |rs| ==> r[j] == Invalidate(rs, userId, t)[j];
  }

  /** `verifyOTP` keeps the table valid. */
  lemma VerifyValid(rs: seq<OtpRecord>, userId: string, otpCode: string, t: OtpType, now: int)
    requires TableValid(rs)
    ensures TableValid(Verify(rs, userId, otpCode, t, now).records)
  {
    var s := Verify(rs, userId, otpCode, t, now);
    match FindActive(rs, userId, t)
    case None =>
    case Some(i) =>
      forall a, b | 0 <= a < b < |rs| && !s.records[a].used && !s.records[b].used
        ensures s.records[a].userId != s.records[b].userId || s.records[a].otpType != s.records[b].otpType
      {
        assert !rs[a].used && !rs[b].used;
      }
  }

  /** With a valid table the attempt limit never triggers: a row that reached it is already used. */
  lemma AttemptsExceededUnreachable(rs: seq<OtpRecord>, userId: string, otpCode: string, t: OtpType, now: int)
    requires TableValid(rs)
    ensures Verify(rs, userId, otpCode, t, now).result != Err(AttemptsExceeded)
  {
    match FindActive(rs, userId, t)
    case None =>
    case Some(i) =>
      assert RecordValid(rs[i], i);
  }

  /**
   * Once a call leaves the challenge it found used, the user has no open
   * challenge of that kind: the next call throws "Invalid or expired OTP"
   * whatever code it is given.
   */
  lemma ConsumedMeansNotFound(rs: seq<OtpRecord>, userId: string, otpCode: string, t: OtpType, now: int,
                              nextCode: string, later: int)
    requires TableValid(rs) && FindActive(rs, userId, t).Some?
    requires Verify(rs, userId, otpCode, t, now).records[FindActive(rs, userId, t).value].used
    ensures var after := Verify(rs, userId, otpCode, t, now).records;
      Verify(after, userId, nextCode, t, later) == VerifyStep(after, Err(NotFound))
  {
    var i := FindActive(rs, userId, t).value;
    UniqueActive(rs, i, userId, t);
    var after := Verify(rs, userId, otpCode, t, now).records;
    assert forall j :: 0 <= j < |after| ==> !Active(after[j], userId, t);
  }

  /** A code is accepted at most once: after a success the same call fails as not found. */
  lemma SuccessIsSingleUse(rs: seq<OtpRecord>, userId: string, otpCode: string, t: OtpType, now: int,
                           nextCode: string, later: int)
    requires TableValid(rs)
    requires Verify(rs, userId, otpCode, t, now).result.Ok?
    ensures var after := Verify(rs, userId, otpCode, t, now).records;
      Verify(after, userId, nextCode, t, later).result == Err(NotFound)
  {
    ConsumedMeansNotFound(rs, userId, otpCode, t, now, nextCode, later);
  }

  /** A wrong code on a challenge that is still open and still has attempts left keeps it the one found. */
  lemma WrongCodeKeepsChallenge(rs: seq<OtpRecord>, userId: string, otpCode: string, t: OtpType, now: int)
    requires TableValid(rs) && FindActive(rs, userId, t).Some?
    requires var s := Verify(rs, userId, otpCode, t, now);
      !s.records[FindActive(rs, userId, t).value].used
    ensures var s := Verify(rs, userId, otpCode, t, now);
      FindActive(s.records, userId, t) == FindActive(rs, userId, t)
  {
    var i := FindActive(rs, userId, t).value;
    var s := Verify(rs, userId, otpCode, t, now);
    VerifyValid(rs, userId, otpCode, t, now);
    UniqueActive(s.records, i, userId, t);
  }

  /**
   * Three wrong codes on a fresh challenge before it expires each throw
   * "Invalid OTP code"; the third exhausts it, so a fourth call, even with
   * the right code, finds no open challenge.
   */
  lemma ThreeWrongCodesExhaust(rs: seq<OtpRecord>, userId: string, t: OtpType, otpCode: string, now: int,
                               minutes: int, w1: string, w2: string, w3: string,
                               n1: int, n2: int, n3: int, n4: int)
    requires TableValid(rs)
    requires w1 != otpCode && w2 != otpCode && w3 != otpCode
    requires n1 <= now + minutes * 60000 && n2 <= now + minutes * 60000 && n3 <= now + minutes * 60000
    ensures var r0 := Create(rs, userId, t, otpCode, now, minutes);
      var s1 := Verify(r0, userId, w1, t, n1);
      var s2 := Verify(s1.records, userId, w2, t, n2);
      var s3 := Verify(s2.records, userId, w3, t, n3);
      && s1.result == Err(InvalidCode) && s2.result == Err(InvalidCode) && s3.result == Err(InvalidCode)
      && Verify(s3.records, userId, otpCode, t, n4) == VerifyStep(s3.records, Err(NotFound))
  {
    var k := |rs|;
    var r0 := Create(rs, userId, t, otpCode, now, minutes);
    CreateValid(rs, userId, t, otpCode, now, minutes);
    CreateLeavesOnlyNew(rs, userId, t, otpCode, now, minutes);
    var s1 := Verify(r0, userId, w1, t, n1);
    assert s1.records[k].attempts == 1;
    WrongCodeKeepsChallenge(r0, userId, w1, t, n1);
    VerifyValid(r0, userId, w1, t, n1);
    var s2 := Verify(s1.records, userId, w2, t, n2);
    assert s2.records[k].attempts == 2;
    WrongCodeKeepsChallenge(s1.records, userId, w2, t, n2);
    VerifyValid(s1.records, userId, w2, t, n2);
    var s3 := Verify(s2.records, userId, w3, t, n3);
    assert s3.records[k].used;
    ConsumedMeansNotFound(s2.records, userId, w3, t, n3, otpCode, n4);
  }

  /**
   * A success proves knowledge of the code: the challenge found was open,
   * unexpired, under its attempt limit, and its digest is that of the code.
   */
  lemma SuccessMeansCodeMatches(rs: seq<OtpRecord>, userId: string, otpCode: string, t: OtpType, now: int)
    requires Verify(rs, userId, otpCode, t, now).result.Ok?
    ensures exists i ::
              && 0 <= i < |rs| && Active(rs[i], userId, t) && rs[i].code == Hash(otpCode)
              && now <= rs[i].expiresAt
  {
    var i := FindActive(rs, userId, t).value;
    assert Active(rs[i], userId, t) && rs[i].code == Hash(otpCode);
  }

  /**
   * The `oTP` table of the database, with the lifetime read from the
   * environment once at start-up.
   */
  class OtpTable {
    var records: seq<OtpRecord>
    const expireMinutes: int

    ghost predicate Valid()
      reads this
    {
      TableValid(records)
    }

    constructor (configured: Option<int>)
      ensures records == [] && expireMinutes == ExpireMinutes(configured)
      ensures Valid()
    {
      records := [];
      expireMinutes := ExpireMinutes(configured);
    }

    /**
     * `createOTP(userId, t)` with `otpCode` as the generator's output:
     * returns the stored record and the plain code to be mailed.
     */
    method CreateOtp(userId: string, t: OtpType, otpCode: string, now: int) returns (otpRecord: OtpRecord, code: string)
      modifies this
      ensures old(Valid()) ==> Valid()
      ensures records == Create(old(records), userId, t, otpCode, now, expireMinutes)
      ensures otpRecord == records[|records| - 1] && code == otpCode
    {
      if Valid() {
        CreateValid(records, userId, t, otpCode, now, expireMinutes);
      }
      records := Invalidate(records, userId, t);
      var hashed := Hash(otpCode);
      var expiresAt := now + expireMinutes * 60 * 1000;
      otpRecord := OtpRecord(|records|, userId, hashed, t, expiresAt, 0, MaxAttempts, false, now);
      records := records + [otpRecord];
      code := otpCode;
    }

    /** `verifyOTP(userId, otpCode, t)`: Ok(true), or the error it throws. */
    method VerifyOtp(userId: string, otpCode: string, t: OtpType, now: int) returns (result: Result<bool, OtpError>)
      modifies this
      ensures old(Valid()) ==> Valid()
      ensures var s := Verify(old(records), userId, otpCode, t, now);
        records == s.records && result == s.result
    {
      if Valid() {
        VerifyValid(records, userId, otpCode, t, now);
      }
      var found := FindActive(records, userId, t);
      if found.None? {
        return Err(NotFound);
      }
      var i := found.value;
      var r := records[i];
      if now > r.expiresAt {
        records := records[i := r.(used := true)];
        return Err(Expired);
      }
      if r.attempts >= r.maxAttempts {
        records := records[i := r.(used := true)];
        return Err(AttemptsExceeded);
      }
      var isValid := Compare(otpCode, r.code);
      if !isValid {
        records := records[i := r.(attempts := r.attempts + 1, used := r.attempts + 1 >= r.maxAttempts)];
        return Err(InvalidCode);
      }
      records := records[i := r.(used := true)];
      result := Ok(true);
    }
  }
}
