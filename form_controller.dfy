/** The registration flow of the server: the registrant table, the three
    verification handlers that change it, the progress query and the pure
    projection of a registrant onto the wizard's steps. Handlers receive the
    request body already validated; a reply is the HTTP status with the
    JSON envelope `{success, message, data}`. */
module FormFlow {
  import opened Wrappers
  import opened Patterns
  import opened JsString
  import Otp

  const UserNotFound: string := "User not found"
  const PanVerificationFailed: string := "PAN verification failed. Please check your details."
  const AadhaarStepTitle: string := "Aadhaar Verification"
  const PanStepTitle: string := "PAN Verification"

  /** One registrant. Times are milliseconds since the epoch. */
  datatype User = User(
    id: nat,
    aadhaarNumber: Option<string>,
    panNumber: Option<string>,
    nameAsPerPan: Option<string>,
    aadhaarVerified: bool,
    aadhaarVerifiedAt: Option<int>,
    panVerified: bool,
    panVerifiedAt: Option<int>)

  /** The wizard step a registrant is on: 1 until the Aadhaar number is
      verified, then 2 until the PAN is verified, then 3 (complete). */
  function GetCurrentStep(u: User): (step: int)
    ensures step == 1 <==> !u.aadhaarVerified
    ensures step == 2 <==> u.aadhaarVerified && !u.panVerified
    ensures step == 3 <==> IsComplete(u)
  {
    if !u.aadhaarVerified then 1 else if !u.panVerified then 2 else 3
  }

  /** `aadhaarVerified && panVerified`, reported as `isComplete`. */
  predicate IsComplete(u: User)
  {
    u.aadhaarVerified && u.panVerified
  }

  /** The stand-in for the government PAN check: both regular expressions
      must match. The one-second delay is not modelled. */
  predicate SimulatePanVerification(panNumber: string, nameAsPerPan: string)
  {
    IsPanShape(panNumber) && IsNameShape(nameAsPerPan)
  }

  /** The PAN check ignores the case of the PAN but nothing else: it trims
      neither argument, and a name outside 2 to 100 characters fails. */
  lemma PanCheckCases(panNumber: string, nameAsPerPan: string)
    ensures SimulatePanVerification(ToUpperCase(panNumber), nameAsPerPan) <==> SimulatePanVerification(panNumber, nameAsPerPan)
    ensures !SimulatePanVerification(" " + panNumber, nameAsPerPan)
    ensures (|nameAsPerPan| < 2 || |nameAsPerPan| > 100) ==> !SimulatePanVerification(panNumber, nameAsPerPan)
  {
    PanShapeUpperCase(panNumber);
    var padded := " " + panNumber;
    assert !IsAsciiLetter(padded[0]);
  }

  // ---- The registrant table ----

  /** The table after a find-or-create or an upsert, with the row acted on. */
  datatype Stored = Stored(users: map<nat, User>, next: nat, id: nat)

  /** Ids are handed out from 0 in order; Aadhaar and PAN numbers are unique
      keys; a flag is only ever set on a row that holds the number it
      verifies; and, as these handlers never copy one number into a row
      created for the other, no row ever holds both numbers. */
  ghost predicate UsersWellFormed(users: map<nat, User>, next: nat)
  {
    && (forall id: nat :: id in users <==> id < next)
    && (forall id :: id in users ==> users[id].id == id)
    && AadhaarIsKey(users)
    && PanIsKey(users)
    && FlagsBacked(users)
    && OneIdentifierEach(users)
  }

  ghost predicate AadhaarIsKey(users: map<nat, User>)
  {
    forall i, j ::
      i in users && j in users && users[i].aadhaarNumber.Some? && users[i].aadhaarNumber == users[j].aadhaarNumber
      ==> i == j
  }

  ghost predicate PanIsKey(users: map<nat, User>)
  {
    forall i, j ::
      i in users && j in users && users[i].panNumber.Some? && users[i].panNumber == users[j].panNumber
      ==> i == j
  }

  ghost predicate FlagsBacked(users: map<nat, User>)
  {
    forall id :: id in users ==>
      && (users[id].aadhaarVerified ==> users[id].aadhaarNumber.Some?)
      && (users[id].panVerified ==> users[id].panNumber.Some?)
  }

  ghost predicate OneIdentifierEach(users: map<nat, User>)
  {
    forall id :: id in users ==> users[id].aadhaarNumber.None? || users[id].panNumber.None?
  }

  /** The two unique keys of the registrant table. */
  datatype UniqueKey = AadhaarKey | PanKey

  function KeyOf(u: User, key: UniqueKey): Option<string>
  {
    match key
    case AadhaarKey => u.aadhaarNumber
    case PanKey => u.panNumber
  }

  /** `prisma.user.findUnique({ where: { aadhaarNumber } })`, or `{ panNumber }`,
      over the ids below `next`. */
  function FindBy(users: map<nat, User>, next: nat, key: UniqueKey, value: string): (r: Option<nat>)
    ensures r.Some? ==> r.value < next && r.value in users && KeyOf(users[r.value], key) == Some(value)
    ensures r.None? ==> forall id :: id in users && id < next ==> KeyOf(users[id], key) != Some(value)
    decreases next
  {
    if next == 0 then None
    else if next - 1 in users && KeyOf(users[next - 1], key) == Some(value) then Some(next - 1)
    else FindBy(users, next - 1, key, value)
  }

  /** Step 1's find-or-create: the registrant with this Aadhaar number, or a
      new one holding only that number. */
  function FindOrCreateByAadhaar(users: map<nat, User>, next: nat, aadhaarNumber: string): (st: Stored)
    ensures st.id in st.users && st.users[st.id].aadhaarNumber == Some(aadhaarNumber)
    ensures st.users.Keys == users.Keys + {st.id}
    ensures forall id :: id in users && id != st.id ==> st.users[id] == users[id]
    ensures FindBy(users, next, AadhaarKey, aadhaarNumber).Some? ==> st.users == users && st.next == next
    ensures FindBy(users, next, AadhaarKey, aadhaarNumber).None? ==>
              && st.id == next && st.next == next + 1
              && st.users[next].panNumber.None? && !st.users[next].aadhaarVerified && !st.users[next].panVerified
  {
    match FindBy(users, next, AadhaarKey, aadhaarNumber)
    case Some(id) => Stored(users, next, id)
    case None => Stored(users[next := User(next, Some(aadhaarNumber), None, None, false, None, false, None)], next + 1, next)
  }

  /** Step 2's upsert: the registrant with this PAN gets the name and the PAN
      flag; without one, a new registrant holding only the PAN is created. */
  function UpsertByPan(users: map<nat, User>, next: nat, panNumber: string, nameAsPerPan: string, now: int): (st: Stored)
    ensures st.id in st.users && st.users[st.id].panNumber == Some(panNumber)
    ensures st.users[st.id].nameAsPerPan == Some(nameAsPerPan)
    ensures st.users[st.id].panVerified && st.users[st.id].panVerifiedAt == Some(now)
    ensures st.users.Keys == users.Keys + {st.id}
    ensures forall id :: id in users && id != st.id ==> st.users[id] == users[id]
    ensures FindBy(users, next, PanKey, panNumber).Some? ==>
              && st.next == next && st.id in users
              && st.users[st.id].aadhaarNumber == users[st.id].aadhaarNumber
              && st.users[st.id].aadhaarVerified == users[st.id].aadhaarVerified
    ensures FindBy(users, next, PanKey, panNumber).None? ==>
              && st.id == next && st.next == next + 1
              && st.users[next].aadhaarNumber.None? && !st.users[next].aadhaarVerified
  {
    match FindBy(users, next, PanKey, panNumber)
    case Some(id) =>
      Stored(users[id := users[id].(nameAsPerPan := Some(nameAsPerPan), panVerified := true, panVerifiedAt := Some(now))], next, id)
    case None =>
      Stored(users[next := User(next, None, Some(panNumber), Some(nameAsPerPan), false, None, true, Some(now))], next + 1, next)
  }

  /** The update after a successful OTP check. */
  function MarkAadhaarVerified(users: map<nat, User>, id: nat, now: int): (users': map<nat, User>)
    requires id in users
    ensures users'.Keys == users.Keys
    ensures forall other :: other in users && other != id ==> users'[other] == users[other]
    ensures users'[id].aadhaarVerified && users'[id].aadhaarVerifiedAt == Some(now)
    ensures users'[id].aadhaarNumber == users[id].aadhaarNumber && users'[id].panNumber == users[id].panNumber
    ensures users'[id].panVerified == users[id].panVerified
  {
    users[id := users[id].(aadhaarVerified := true, aadhaarVerifiedAt := Some(now))]
  }

  /** Verification flags only go from false to true. */
  ghost predicate FlagsOnlyRise(before: map<nat, User>, after: map<nat, User>)
  {
    forall id :: id in before ==>
      && id in after
      && (before[id].aadhaarVerified ==> after[id].aadhaarVerified)
      && (before[id].panVerified ==> after[id].panVerified)
  }

  /** Find-or-create returns the one registrant holding the number, creates a
      row only when there was none, and leaves every existing row as it was. */
  lemma FindOrCreateFindsOrAdds(users: map<nat, User>, next: nat, aadhaarNumber: string)
    requires UsersWellFormed(users, next)
    ensures var st := FindOrCreateByAadhaar(users, next, aadhaarNumber);
            && UsersWellFormed(st.users, st.next)
            && st.id in st.users && st.users[st.id].aadhaarNumber == Some(aadhaarNumber)
            && (forall id :: id in st.users && st.users[id].aadhaarNumber == Some(aadhaarNumber) ==> id == st.id)
            && (forall id :: id in users ==> id in st.users && st.users[id] == users[id])
            && st.next == (if FindBy(users, next, AadhaarKey, aadhaarNumber).Some? then next else next + 1)
  {
  }

  /** Repeating step 1 with the same number never creates a second
      registrant: the second call finds the row the first one returned. */
  lemma {:induction false} FindOrCreateIdempotent(users: map<nat, User>, next: nat, aadhaarNumber: string)
    requires UsersWellFormed(users, next)
    ensures var st := FindOrCreateByAadhaar(users, next, aadhaarNumber);
            FindOrCreateByAadhaar(st.users, st.next, aadhaarNumber) == st
  {
    var st := FindOrCreateByAadhaar(users, next, aadhaarNumber);
    FindOrCreateFindsOrAdds(users, next, aadhaarNumber);
    var again := FindBy(st.users, st.next, AadhaarKey, aadhaarNumber);
    assert again == Some(st.id);
  }

  /** The upsert sets the PAN flag and name on the one row holding the PAN,
      creates a row only when none held it, and changes no other row. */
  lemma UpsertByPanEffect(users: map<nat, User>, next: nat, panNumber: string, nameAsPerPan: string, now: int)
    requires UsersWellFormed(users, next)
    ensures var st := UpsertByPan(users, next, panNumber, nameAsPerPan, now);
            && st.id in st.users && st.users[st.id].panNumber == Some(panNumber)
            && st.users[st.id].panVerified && st.users[st.id].nameAsPerPan == Some(nameAsPerPan)
            && st.users[st.id].panVerifiedAt == Some(now)
            && st.users.Keys == users.Keys + {st.id}
            && (forall id :: id in users && id != st.id ==> st.users[id] == users[id])
            && st.next == (if FindBy(users, next, PanKey, panNumber).Some? then next else next + 1)
  {
  }

  /** The upsert never touches Aadhaar data: every row keeps its Aadhaar
      number and flag, and a row it creates is not Aadhaar-verified. Flags
      only rise. */
  lemma UpsertByPanLeavesAadhaar(users: map<nat, User>, next: nat, panNumber: string, nameAsPerPan: string, now: int)
    requires UsersWellFormed(users, next)
    ensures var st := UpsertByPan(users, next, panNumber, nameAsPerPan, now);
            && (forall id :: id in users ==>
                  && id in st.users
                  && st.users[id].aadhaarVerified == users[id].aadhaarVerified
                  && st.users[id].aadhaarNumber == users[id].aadhaarNumber)
            && (st.id !in users ==> !st.users[st.id].aadhaarVerified && st.users[st.id].aadhaarNumber.None?)
            && FlagsOnlyRise(users, st.users)
  {
  }

  /** The upsert keeps the table well formed; in particular the PAN stays a
      unique key. */
  lemma UpsertByPanKeepsWellFormed(users: map<nat, User>, next: nat, panNumber: string, nameAsPerPan: string, now: int)
    requires UsersWellFormed(users, next)
    ensures var st := UpsertByPan(users, next, panNumber, nameAsPerPan, now);
            UsersWellFormed(st.users, st.next)
  {
    match FindBy(users, next, PanKey, panNumber)
    case Some(id) => PanUpdateKeepsWellFormed(users, next, id, nameAsPerPan, now);
    case None => PanInsertKeepsWellFormed(users, next, panNumber, nameAsPerPan, now);
  }

  /** Updating the name and PAN flag of a registrant that holds a PAN. */
  lemma PanUpdateKeepsWellFormed(users: map<nat, User>, next: nat, id: nat, nameAsPerPan: string, now: int)
    requires UsersWellFormed(users, next)
    requires id in users && users[id].panNumber.Some?
    ensures UsersWellFormed(users[id := users[id].(nameAsPerPan := Some(nameAsPerPan), panVerified := true, panVerifiedAt := Some(now))], next)
  {
    var u := users[id := users[id].(nameAsPerPan := Some(nameAsPerPan), panVerified := true, panVerifiedAt := Some(now))];
    assert forall k :: k in u ==>
      && u[k].id == users[k].id
      && u[k].aadhaarNumber == users[k].aadhaarNumber
      && u[k].panNumber == users[k].panNumber
      && u[k].aadhaarVerified == users[k].aadhaarVerified;
  }

  /** Adding a registrant that holds only an unused PAN. */
  lemma PanInsertKeepsWellFormed(users: map<nat, User>, next: nat, panNumber: string, nameAsPerPan: string, now: int)
    requires UsersWellFormed(users, next)
    requires forall id :: id in users && id < next ==> users[id].panNumber != Some(panNumber)
    ensures UsersWellFormed(users[next := User(next, None, Some(panNumber), Some(nameAsPerPan), false, None, true, Some(now))], next + 1)
  {
    var u := users[next := User(next, None, Some(panNumber), Some(nameAsPerPan), false, None, true, Some(now))];
    assert next !in users;
    assert PanIsKey(u) by {
      forall i, j | i in u && j in u && u[i].panNumber.Some? && u[i].panNumber == u[j].panNumber
        ensures i == j
      {
        if i != next && j != next {
          assert users[i].panNumber == users[j].panNumber;
        }
      }
    }
    assert AadhaarIsKey(u) by {
      forall i, j | i in u && j in u && u[i].aadhaarNumber.Some? && u[i].aadhaarNumber == u[j].aadhaarNumber
        ensures i == j
      {
        assert i in users && j in users;
      }
    }
  }

  /** Repeating step 2 with the same PAN never creates a second registrant:
      a repeat at any time acts on the same row and only moves its
      verification time, and a repeat at the same time changes nothing. */
  lemma {:induction false} UpsertByPanIdempotent(users: map<nat, User>, next: nat, panNumber: string,
                                                 nameAsPerPan: string, now: int, later: int)
    requires UsersWellFormed(users, next)
    ensures var st := UpsertByPan(users, next, panNumber, nameAsPerPan, now);
            var again := UpsertByPan(st.users, st.next, panNumber, nameAsPerPan, later);
            && again.id == st.id && again.next == st.next
            && again.users == st.users[st.id := st.users[st.id].(panVerifiedAt := Some(later))]
    ensures var st := UpsertByPan(users, next, panNumber, nameAsPerPan, now);
            UpsertByPan(st.users, st.next, panNumber, nameAsPerPan, now) == st
  {
    var st := UpsertByPan(users, next, panNumber, nameAsPerPan, now);
    UpsertByPanEffect(users, next, panNumber, nameAsPerPan, now);
    UpsertByPanKeepsWellFormed(users, next, panNumber, nameAsPerPan, now);
    assert FindBy(st.users, st.next, PanKey, panNumber) == Some(st.id);
    var u := st.users[st.id];
    assert u.(nameAsPerPan := Some(nameAsPerPan), panVerified := true, panVerifiedAt := Some(later))
        == u.(panVerifiedAt := Some(later));
    assert u.(panVerifiedAt := Some(now)) == u;
    assert st.users[st.id := u] == st.users;
  }

  /** Marking a registrant Aadhaar-verified keeps the table well formed and
      moves it past step 1. */
  lemma MarkAadhaarVerifiedEffect(users: map<nat, User>, next: nat, id: nat, now: int)
    requires UsersWellFormed(users, next) && id in users && users[id].aadhaarNumber.Some?
    ensures var users' := MarkAadhaarVerified(users, id, now);
            && UsersWellFormed(users', next)
            && GetCurrentStep(users'[id]) >= 2
            && users'[id].panVerified == users[id].panVerified
            && FlagsOnlyRise(users, users')
  {
  }

  /** What the handlers do as written never completes a registration: step 2
      always acts on a row created or found by PAN, which holds no Aadhaar
      number and so is never Aadhaar-verified, and step 1 only verifies rows
      without a PAN. Hence `isComplete` is false and the current step is
      never 3 in any table these handlers build. */
  lemma NoRegistrantCompletes(users: map<nat, User>, next: nat, id: nat)
    requires UsersWellFormed(users, next) && id in users
    ensures !IsComplete(users[id]) && GetCurrentStep(users[id]) != 3
  {
  }

  // ---- Replies ----

  /** An HTTP reply: 200 with `success: true`, an optional message and the
      data, or a failure status with `success: false` and a message. */
  datatype Reply<T> = Success(note: Option<string>, data: T) | Failure(status: int, message: string)
  {
    function Status(): int
    {
      if Success? then 200 else status
    }
  }

  datatype GenerateOtpData = GenerateOtpData(userId: nat, expiresAt: int, otp: Option<string>)
  datatype VerifyOtpData = VerifyOtpData(userId: nat, aadhaarVerified: bool, nextStep: int)
  datatype VerifyPanData = VerifyPanData(userId: nat, panVerified: bool, nameAsPerPan: string, isComplete: bool)
  datatype StepStatus = StepStatus(title: string, completed: bool, completedAt: Option<int>)
  datatype Progress = Progress(userId: nat, currentStep: int, step1: StepStatus, step2: StepStatus,
                               isComplete: bool, submissions: nat)
  datatype SubmitData = SubmitData(submissionId: nat, step: int, status: string)

  /** One audit row: the acting user, the action, the resource, whether it
      succeeded and the error message if it did not. */
  datatype AuditEntry = AuditEntry(userId: Option<nat>, action: string, resource: string,
                                   success: bool, errorMessage: Option<string>)

  datatype Submission = Submission(id: nat, userId: nat, step: int, status: string)

  /** How many submissions belong to `userId`. */
  function SubmissionCount(subs: seq<Submission>, userId: nat): (n: nat)
    ensures n <= |subs|
    ensures n == 0 <==> forall i :: 0 <= i < |subs| ==> subs[i].userId != userId
    ensures n == |subs| <==> forall i :: 0 <= i < |subs| ==> subs[i].userId == userId
  {
    if subs == [] then 0
    else SubmissionCount(subs[..|subs| - 1], userId) + (if subs[|subs| - 1].userId == userId then 1 else 0)
  }

  /** A new submission counts for its own user and for no one else. */
  lemma SubmissionCountAppend(subs: seq<Submission>, s: Submission, userId: nat)
    ensures SubmissionCount(subs + [s], userId) == SubmissionCount(subs, userId) + (if s.userId == userId then 1 else 0)
  {
    assert (subs + [s])[..|subs|] == subs;
  }

  /** The form controller's view of the database: the registrant table, the
      submissions, the audit log, and the OTP service it calls. */
  class FormController {
    const otp: Otp.OtpService
    var users: map<nat, User>
    var nextUserId: nat
    var submissions: seq<Submission>
    var auditLog: seq<AuditEntry>

    ghost predicate Valid()
      reads this, otp
    {
      otp.Valid() && UsersWellFormed(users, nextUserId)
    }

    constructor (service: Otp.OtpService)
      requires service.Valid()
      ensures otp == service && Valid()
      ensures users == map[] && nextUserId == 0 && submissions == [] && auditLog == []
    {
      otp := service;
      users := map[];
      nextUserId := 0;
      submissions := [];
      auditLog := [];
    }

    /** POST /step1/generate-otp: find or create the registrant, then issue
        an Aadhaar OTP for it. */
    method GenerateAadhaarOtp(aadhaarNumber: string, now: int, rand: real, nodeEnv: Option<string>)
      returns (reply: Reply<GenerateOtpData>)
      requires Valid() && 0.0 <= rand < 1.0
      modifies this, otp
      ensures Valid()
      ensures var st := FindOrCreateByAadhaar(old(users), old(nextUserId), aadhaarNumber);
              && users == st.users && nextUserId == st.next
              && otp.records == Otp.Issue(old(otp.records), st.id, Otp.AadhaarPurpose, now, Otp.GenerateOtp(rand),
                                          otp.otpExpiryMinutes, otp.maxAttempts)
              && reply == Success(Some("OTP generated successfully"),
                                  GenerateOtpData(st.id, now + otp.otpExpiryMinutes * 60 * 1000,
                                                  if nodeEnv == Some("development") then Some(Otp.GenerateOtp(rand)) else None))
              && auditLog == old(auditLog) + [AuditEntry(Some(st.id), "GENERATE_OTP", Otp.AadhaarPurpose, true, None)]
      ensures submissions == old(submissions)
    {
      FindOrCreateFindsOrAdds(users, nextUserId, aadhaarNumber);
      var found := FindBy(users, nextUserId, AadhaarKey, aadhaarNumber);
      var id: nat;
      if found.Some? {
        id := found.value;
      } else {
        id := nextUserId;
        users := users[id := User(id, Some(aadhaarNumber), None, None, false, None, false, None)];
        nextUserId := nextUserId + 1;
      }
      var issued := otp.CreateOtpVerification(id, Otp.AadhaarPurpose, now, rand, nodeEnv);
      auditLog := auditLog + [AuditEntry(Some(id), "GENERATE_OTP", Otp.AadhaarPurpose, true, None)];
      var shown := if nodeEnv == Some("development") then issued.otpCode else None;
      reply := Success(Some("OTP generated successfully"), GenerateOtpData(id, issued.expiresAt, shown));
    }

    /** POST /step1/verify-otp: 404 for an unknown number; otherwise check
        the code and, on success, mark the registrant Aadhaar-verified. */
    method VerifyAadhaarOtp(aadhaarNumber: string, otpCode: string, now: int) returns (reply: Reply<VerifyOtpData>)
      requires Valid()
      modifies this, otp
      ensures Valid()
      ensures nextUserId == old(nextUserId) && submissions == old(submissions)
      ensures FindBy(old(users), old(nextUserId), AadhaarKey, aadhaarNumber).None? ==>
                && reply == Failure(404, UserNotFound)
                && users == old(users) && otp.records == old(otp.records) && auditLog == old(auditLog)
      ensures FindBy(old(users), old(nextUserId), AadhaarKey, aadhaarNumber).Some? ==>
                var id := FindBy(old(users), old(nextUserId), AadhaarKey, aadhaarNumber).value;
                var outcome := Otp.Verify(old(otp.records), id, otpCode, Otp.AadhaarPurpose, now);
                && otp.records == outcome.1
                && (outcome.0.success ==>
                      && users == MarkAadhaarVerified(old(users), id, now)
                      && reply == Success(Some("Aadhaar verified successfully"), VerifyOtpData(id, true, 2))
                      && auditLog == old(auditLog) + [AuditEntry(Some(id), "VERIFY_OTP", Otp.AadhaarPurpose, true, None)])
                && (!outcome.0.success ==>
                      && users == old(users)
                      && reply == Failure(400, outcome.0.message)
                      && auditLog == old(auditLog) + [AuditEntry(Some(id), "VERIFY_OTP", Otp.AadhaarPurpose, false,
                                                                  Some(outcome.0.message))])
    {
      var found := FindBy(users, nextUserId, AadhaarKey, aadhaarNumber);
      if found.None? {
        return Failure(404, UserNotFound);
      }
      var id := found.value;
      var result := otp.VerifyOtpCode(id, otpCode, Otp.AadhaarPurpose, now);
      if !result.success {
        auditLog := auditLog + [AuditEntry(Some(id), "VERIFY_OTP", Otp.AadhaarPurpose, false, Some(result.message))];
        return Failure(400, result.message);
      }
      MarkAadhaarVerifiedEffect(users, nextUserId, id, now);
      users := users[id := users[id].(aadhaarVerified := true, aadhaarVerifiedAt := Some(now))];
      auditLog := auditLog + [AuditEntry(Some(id), "VERIFY_OTP", Otp.AadhaarPurpose, true, None)];
      reply := Success(Some("Aadhaar verified successfully"), VerifyOtpData(id, true, 2));
    }

    /** POST /step2/verify-pan: 400 when the simulated check fails; otherwise
        upsert the registrant by PAN. The OTP table is not touched. */
    method VerifyPan(panNumber: string, nameAsPerPan: string, now: int) returns (reply: Reply<VerifyPanData>)
      requires Valid()
      modifies this
      ensures Valid()
      ensures submissions == old(submissions)
      ensures !SimulatePanVerification(panNumber, nameAsPerPan) ==>
                && reply == Failure(400, PanVerificationFailed)
                && users == old(users) && nextUserId == old(nextUserId) && auditLog == old(auditLog)
      ensures SimulatePanVerification(panNumber, nameAsPerPan) ==>
                var st := UpsertByPan(old(users), old(nextUserId), panNumber, nameAsPerPan, now);
                && users == st.users && nextUserId == st.next
                && reply == Success(Some("PAN verified successfully"),
                                    VerifyPanData(st.id, true, nameAsPerPan, IsComplete(st.users[st.id])))
                && auditLog == old(auditLog) + [AuditEntry(Some(st.id), "VERIFY_PAN", "pan_verification", true, None)]
    {
      if !SimulatePanVerification(panNumber, nameAsPerPan) {
        return Failure(400, PanVerificationFailed);
      }
      UpsertByPanEffect(users, nextUserId, panNumber, nameAsPerPan, now);
      UpsertByPanKeepsWellFormed(users, nextUserId, panNumber, nameAsPerPan, now);
      var found := FindBy(users, nextUserId, PanKey, panNumber);
      var id: nat;
      if found.None? {
        id := nextUserId;
        users := users[id := User(id, None, Some(panNumber), Some(nameAsPerPan), false, None, true, Some(now))];
        nextUserId := nextUserId + 1;
      } else {
        id := found.value;
        users := users[id := users[id].(nameAsPerPan := Some(nameAsPerPan), panVerified := true, panVerifiedAt := Some(now))];
      }
      auditLog := auditLog + [AuditEntry(Some(id), "VERIFY_PAN", "pan_verification", true, None)];
      var u := users[id];
      reply := Success(Some("PAN verified successfully"),
                       VerifyPanData(id, true, u.nameAsPerPan.GetOr(nameAsPerPan), u.aadhaarVerified && u.panVerified));
    }

    /** POST /submit, the insert only: a COMPLETED submission for `userId`. */
    method SubmitForm(userId: nat, step: int) returns (reply: Reply<SubmitData>)
      requires Valid()
      modifies this
      ensures Valid()
      ensures users == old(users) && nextUserId == old(nextUserId)
      ensures submissions == old(submissions) + [Submission(|old(submissions)|, userId, step, "COMPLETED")]
      ensures auditLog == old(auditLog) + [AuditEntry(Some(userId), "SUBMIT_FORM", "form_submission", true, None)]
      ensures reply == Success(Some("Form submitted successfully"), SubmitData(|old(submissions)|, step, "COMPLETED"))
    {
      var id := |submissions|;
      submissions := submissions + [Submission(id, userId, step, "COMPLETED")];
      auditLog := auditLog + [AuditEntry(Some(userId), "SUBMIT_FORM", "form_submission", true, None)];
      reply := Success(Some("Form submitted successfully"), SubmitData(id, step, "COMPLETED"));
    }

    /** GET /progress/:userId: 404 for an unknown id; otherwise the step the
        registrant is on, the two step statuses, completeness and the number
        of its submissions. */
    method GetFormProgress(userId: nat) returns (reply: Reply<Progress>)
      ensures userId !in users ==> reply == Failure(404, UserNotFound)
      ensures userId in users ==>
                var u := users[userId];
                && reply.Success? && reply.note.None?
                && reply.data.userId == userId
                && reply.data.currentStep == GetCurrentStep(u)
                && (reply.data.isComplete <==> reply.data.currentStep == 3)
                && reply.data.step1 == StepStatus(AadhaarStepTitle, u.aadhaarVerified, u.aadhaarVerifiedAt)
                && reply.data.step2 == StepStatus(PanStepTitle, u.panVerified, u.panVerifiedAt)
                && reply.data.submissions == SubmissionCount(submissions, userId)
    {
      if userId !in users {
        return Failure(404, UserNotFound);
      }
      var u := users[userId];
      var progress := Progress(userId, GetCurrentStep(u),
                               StepStatus(AadhaarStepTitle, u.aadhaarVerified, u.aadhaarVerifiedAt),
                               StepStatus(PanStepTitle, u.panVerified, u.panVerifiedAt),
                               u.aadhaarVerified && u.panVerified,
                               SubmissionCount(submissions, userId));
      reply := Success(None, progress);
    }
  }
}
