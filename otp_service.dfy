/** The one-time-password table of the server and the two operations on it:
    issuing a fresh code for a (user, purpose) pair, and checking a code that
    a user submits. The pure functions below describe each operation; the
    class `OtpService` performs them in place and is proved to agree. */
module Otp {
  import opened Wrappers
  import opened JsString
  import JsNumber
  import Patterns

  const DefaultExpiryMinutes: int := 10
  const DefaultMaxAttempts: int := 3
  const AadhaarPurpose: string := "aadhaar_verification"

  const NoValidOtp: string := "No valid OTP found or OTP has expired"
  const MaxAttemptsExceeded: string := "Maximum OTP attempts exceeded"
  const OtpVerified: string := "OTP verified successfully"
  const InvalidOtp: string := "Invalid OTP"

  /** One row of the OTP table. Times are milliseconds since the epoch.
      `otpCode` stands for both the stored plaintext and its bcrypt hash:
      checking a code against the hash is modelled as equality with it. */
  datatype OtpRecord = OtpRecord(
    id: nat,
    userId: nat,
    otpCode: string,
    purpose: string,
    expiresAt: int,
    attempts: nat,
    maxAttempts: int,
    isVerified: bool,
    verifiedAt: Option<int>,
    createdAt: int)

  /** What issuing returns: the record id, its expiry, and the code itself
      only when the server runs in development mode. */
  datatype IssueReply = IssueReply(id: nat, expiresAt: int, otpCode: Option<string>)

  datatype VerifyReply = VerifyReply(success: bool, message: string)

  /** `Math.floor(100000 + Math.random() * 900000).toString()`, where `rand`
      is the value `Math.random()` returned. */
  function GenerateOtp(rand: real): (code: string)
    requires 0.0 <= rand < 1.0
    ensures Patterns.IsSixDigits(code) && code[0] != '0'
    ensures 100000 <= JsNumber.DecimalValue(code) <= 999999
  {
    var x := 100000.0 + rand * 900000.0;
    assert 100000.0 <= x < 1000000.0;
    var n := x.Floor;
    assert 100000 <= n <= 999999;
    assert JsNumber.Pow10(5) == 100000 && JsNumber.Pow10(6) == 1000000;
    JsNumber.DecimalLength(n, 5);
    JsNumber.DecimalRoundTrip(n);
    JsNumber.NatToDecimal(n)
  }

  predicate ForPair(r: OtpRecord, userId: nat, purpose: string)
  {
    r.userId == userId && r.purpose == purpose
  }

  /** The filter of the `findFirst` query: unverified and not yet expired. */
  predicate IsActive(r: OtpRecord, userId: nat, purpose: string, now: int)
  {
    ForPair(r, userId, purpose) && !r.isVerified && r.expiresAt > now
  }

  /** The effect of the `updateMany` on one row: an unverified row of the
      pair is marked as used. */
  function Invalidated(r: OtpRecord, userId: nat, purpose: string, now: int): OtpRecord
  {
    if ForPair(r, userId, purpose) && !r.isVerified then r.(isVerified := true, verifiedAt := Some(now)) else r
  }

  function InvalidatePair(rs: seq<OtpRecord>, userId: nat, purpose: string, now: int): (r: seq<OtpRecord>)
    ensures |r| == |rs|
    ensures forall i :: 0 <= i < |r| && ForPair(r[i], userId, purpose) ==> r[i].isVerified
    ensures forall i :: 0 <= i < |rs| && (!ForPair(rs[i], userId, purpose) || rs[i].isVerified) ==> r[i] == rs[i]
    ensures forall i :: 0 <= i < |rs| && ForPair(rs[i], userId, purpose) && !rs[i].isVerified ==>
              r[i].verifiedAt == Some(now) && r[i].otpCode == rs[i].otpCode && r[i].attempts == rs[i].attempts
  {
    seq(|rs|, i requires 0 <= i < |rs| => Invalidated(rs[i], userId, purpose, now))
  }

  /** The row that issuing inserts. */
  function NewRecord(id: nat, userId: nat, code: string, purpose: string, now: int,
                     expiryMinutes: int, maxAttempts: int): OtpRecord
  {
    OtpRecord(id, userId, code, purpose, now + expiryMinutes * 60 * 1000, 0, maxAttempts, false, None, now)
  }

  /** The table after issuing `code` to (userId, purpose) at time `now`. */
  function Issue(rs: seq<OtpRecord>, userId: nat, purpose: string, now: int, code: string,
                 expiryMinutes: int, maxAttempts: int): seq<OtpRecord>
  {
    InvalidatePair(rs, userId, purpose, now) + [NewRecord(|rs|, userId, code, purpose, now, expiryMinutes, maxAttempts)]
  }

  /** The `findFirst` lookup: the most recently inserted active row of the
      pair, or `None` when there is none. */
  function ActiveIndex(rs: seq<OtpRecord>, userId: nat, purpose: string, now: int): (r: Option<nat>)
    ensures r.Some? ==> r.value < |rs| && IsActive(rs[r.value], userId, purpose, now)
    ensures r.Some? ==> forall j :: r.value < j < |rs| ==> !IsActive(rs[j], userId, purpose, now)
    ensures r.None? ==> forall j :: 0 <= j < |rs| ==> !IsActive(rs[j], userId, purpose, now)
  {
    if rs == [] then None
    else if IsActive(rs[|rs| - 1], userId, purpose, now) then Some(|rs| - 1)
    else ActiveIndex(rs[..|rs| - 1], userId, purpose, now)
  }

  /** The reply and the table after `userId` submits `code` for `purpose` at
      time `now`. */
  function Verify(rs: seq<OtpRecord>, userId: nat, code: string, purpose: string, now: int): (out: (VerifyReply, seq<OtpRecord>))
    ensures |out.1| == |rs|
    ensures ActiveIndex(rs, userId, purpose, now).None? ==> out == (VerifyReply(false, NoValidOtp), rs)
    ensures ActiveIndex(rs, userId, purpose, now).Some? ==>
              var i := ActiveIndex(rs, userId, purpose, now).value;
              && (rs[i].attempts >= rs[i].maxAttempts ==> out == (VerifyReply(false, MaxAttemptsExceeded), rs))
              && (rs[i].attempts < rs[i].maxAttempts ==>
                    && (forall j :: 0 <= j < |rs| && j != i ==> out.1[j] == rs[j])
                    && (out.0.success <==> code == rs[i].otpCode)
                    && (out.0.success ==>
                          && out.0.message == OtpVerified
                          && out.1[i] == rs[i].(attempts := rs[i].attempts + 1, isVerified := true, verifiedAt := Some(now)))
                    && (!out.0.success ==>
                          && out.0.message == InvalidOtp
                          && out.1[i] == rs[i].(attempts := rs[i].attempts + 1)))
    ensures !out.0.success ==> forall j :: 0 <= j < |rs| ==> out.1[j].isVerified == rs[j].isVerified
  {
    match ActiveIndex(rs, userId, purpose, now)
    case None => (VerifyReply(false, NoValidOtp), rs)
    case Some(i) =>
      var r := rs[i];
      if r.attempts >= r.maxAttempts then (VerifyReply(false, MaxAttemptsExceeded), rs)
      else
        var tried := r.(attempts := r.attempts + 1);
        if code == r.otpCode then
          (VerifyReply(true, OtpVerified), rs[i := tried.(isVerified := true, verifiedAt := Some(now))])
        else
          (VerifyReply(false, InvalidOtp), rs[i := tried])
  }

  // ---- Invariants of the table ----

  /** Row ids are the insertion positions. */
  ghost predicate IdsAreIndices(rs: seq<OtpRecord>)
  {
    forall i :: 0 <= i < |rs| ==> rs[i].id == i
  }

  /** No row has been tried more often than its cap allows (a row whose cap
      is not positive is never tried at all). */
  ghost predicate AttemptsWithinCap(rs: seq<OtpRecord>)
  {
    forall i :: 0 <= i < |rs| ==> rs[i].attempts == 0 || rs[i].attempts <= rs[i].maxAttempts
  }

  /** At most one unverified row per (user, purpose) pair. */
  ghost predicate AtMostOneOpen(rs: seq<OtpRecord>)
  {
    forall i, j :: 0 <= i < j < |rs| && ForPair(rs[j], rs[i].userId, rs[i].purpose) ==> rs[i].isVerified || rs[j].isVerified
  }

  ghost predicate WellFormed(rs: seq<OtpRecord>)
  {
    IdsAreIndices(rs) && AttemptsWithinCap(rs) && AtMostOneOpen(rs)
  }

  // ---- Properties of issuing ----

  /** After issuing, the new row is the only unverified row of the pair; it
      is unverified, untried, carries the configured cap and expires
      `expiryMinutes` minutes after `now`. */
  lemma IssueLeavesOnlyNewOpen(rs: seq<OtpRecord>, userId: nat, purpose: string, now: int, code: string,
                               expiryMinutes: int, maxAttempts: int)
    ensures var rs' := Issue(rs, userId, purpose, now, code, expiryMinutes, maxAttempts);
            && |rs'| == |rs| + 1
            && (forall i :: 0 <= i < |rs| && ForPair(rs'[i], userId, purpose) ==> rs'[i].isVerified)
            && rs'[|rs|].id == |rs| && ForPair(rs'[|rs|], userId, purpose)
            && rs'[|rs|].otpCode == code && !rs'[|rs|].isVerified && rs'[|rs|].attempts == 0
            && rs'[|rs|].maxAttempts == maxAttempts
            && rs'[|rs|].expiresAt == now + expiryMinutes * 60 * 1000
  {
  }

  /** Issuing changes no row of another user or purpose, and no row that was
      already verified; an unverified row of the pair only gains the used
      mark and its time. */
  lemma IssueFrame(rs: seq<OtpRecord>, userId: nat, purpose: string, now: int, code: string,
                   expiryMinutes: int, maxAttempts: int)
    ensures var rs' := Issue(rs, userId, purpose, now, code, expiryMinutes, maxAttempts);
            forall i :: 0 <= i < |rs| && (!ForPair(rs[i], userId, purpose) || rs[i].isVerified) ==> rs'[i] == rs[i]
    ensures var rs' := Issue(rs, userId, purpose, now, code, expiryMinutes, maxAttempts);
            forall i :: 0 <= i < |rs| && ForPair(rs[i], userId, purpose) && !rs[i].isVerified ==>
              rs'[i] == rs[i].(isVerified := true, verifiedAt := Some(now))
  {
  }

  /** Right after issuing, a verification for the pair acts on the new row
      (or finds nothing, once the new row has expired). */
  lemma {:induction false} IssueThenLookup(rs: seq<OtpRecord>, userId: nat, purpose: string, now: int, code: string,
                                           expiryMinutes: int, maxAttempts: int, later: int)
    ensures var rs' := Issue(rs, userId, purpose, now, code, expiryMinutes, maxAttempts);
            ActiveIndex(rs', userId, purpose, later) ==
              if rs'[|rs|].expiresAt > later then Some(|rs|) else None
  {
    var rs' := Issue(rs, userId, purpose, now, code, expiryMinutes, maxAttempts);
    IssueLeavesOnlyNewOpen(rs, userId, purpose, now, code, expiryMinutes, maxAttempts);
    if rs'[|rs|].expiresAt <= later {
      assert rs'[..|rs'| - 1] == InvalidatePair(rs, userId, purpose, now);
      NoneActive(rs'[..|rs'| - 1], userId, purpose, later);
    }
  }

  /** A table in which every row of the pair is verified has no active row. */
  lemma {:induction false} NoneActive(rs: seq<OtpRecord>, userId: nat, purpose: string, now: int)
    requires forall i :: 0 <= i < |rs| && ForPair(rs[i], userId, purpose) ==> rs[i].isVerified
    ensures ActiveIndex(rs, userId, purpose, now) == None
  {
    if rs != [] {
      NoneActive(rs[..|rs| - 1], userId, purpose, now);
    }
  }

  lemma IssuePreservesWellFormed(rs: seq<OtpRecord>, userId: nat, purpose: string, now: int, code: string,
                                 expiryMinutes: int, maxAttempts: int)
    requires WellFormed(rs)
    ensures WellFormed(Issue(rs, userId, purpose, now, code, expiryMinutes, maxAttempts))
  {
    var rs' := Issue(rs, userId, purpose, now, code, expiryMinutes, maxAttempts);
    forall i, j | 0 <= i < j < |rs'| && ForPair(rs'[j], rs'[i].userId, rs'[i].purpose)
      ensures rs'[i].isVerified || rs'[j].isVerified
    {
      if j < |rs| {
        assert rs'[i] == Invalidated(rs[i], userId, purpose, now);
        assert rs'[j] == Invalidated(rs[j], userId, purpose, now);
      }
    }
  }

  // ---- Properties of verification ----

  /** Under the table invariant the row a verification acts on is the only
      unverified row of the pair, so "the newest active row" is unambiguous. */
  lemma ActiveIsOnlyOpen(rs: seq<OtpRecord>, userId: nat, purpose: string, now: int)
    requires AtMostOneOpen(rs)
    requires ActiveIndex(rs, userId, purpose, now).Some?
    ensures var i := ActiveIndex(rs, userId, purpose, now).value;
            forall j :: 0 <= j < |rs| && j != i && ForPair(rs[j], userId, purpose) ==> rs[j].isVerified
  {
    var i := ActiveIndex(rs, userId, purpose, now).value;
    forall j | 0 <= j < |rs| && j != i && ForPair(rs[j], userId, purpose)
      ensures rs[j].isVerified
    {
      if j < i {
        assert ForPair(rs[i], rs[j].userId, rs[j].purpose);
      } else {
        assert ForPair(rs[j], rs[i].userId, rs[i].purpose);
      }
    }
  }

  lemma VerifyPreservesWellFormed(rs: seq<OtpRecord>, userId: nat, code: string, purpose: string, now: int)
    requires WellFormed(rs)
    ensures WellFormed(Verify(rs, userId, code, purpose, now).1)
  {
    var rs' := Verify(rs, userId, code, purpose, now).1;
    forall i, j | 0 <= i < j < |rs'| && ForPair(rs'[j], rs'[i].userId, rs'[i].purpose)
      ensures rs'[i].isVerified || rs'[j].isVerified
    {
      assert ForPair(rs[j], rs[i].userId, rs[i].purpose);
    }
  }

  /** Attempts never exceed the cap, whatever sequence of issues and
      verifications the table goes through. */
  lemma AttemptsNeverExceedCap(rs: seq<OtpRecord>, userId: nat, code: string, purpose: string, now: int)
    requires WellFormed(rs)
    ensures var rs' := Verify(rs, userId, code, purpose, now).1;
            forall i :: 0 <= i < |rs'| ==> rs'[i].attempts == 0 || rs'[i].attempts <= rs'[i].maxAttempts
  {
    VerifyPreservesWellFormed(rs, userId, code, purpose, now);
  }

  /** A code that was accepted cannot be used again: after a successful
      verification, no later verification of the pair succeeds, whatever code
      it submits and whenever it comes, until a new code is issued. */
  lemma AcceptedCodeIsSpent(rs: seq<OtpRecord>, userId: nat, code: string, purpose: string, now: int,
                            code': string, later: int)
    requires AtMostOneOpen(rs)
    requires Verify(rs, userId, code, purpose, now).0.success
    ensures var rs' := Verify(rs, userId, code, purpose, now).1;
            Verify(rs', userId, code', purpose, later) == (VerifyReply(false, NoValidOtp), rs')
  {
    var rs' := Verify(rs, userId, code, purpose, now).1;
    ActiveIsOnlyOpen(rs, userId, purpose, now);
    NoneActive(rs', userId, purpose, later);
  }

  /** When row `k` is the pair's only unverified row and has not expired,
      the lookup finds it. */
  lemma OnlyOpenIsFound(rs: seq<OtpRecord>, k: nat, userId: nat, purpose: string, now: int)
    requires k < |rs| && IsActive(rs[k], userId, purpose, now)
    requires forall j :: 0 <= j < |rs| && j != k && ForPair(rs[j], userId, purpose) ==> rs[j].isVerified
    ensures ActiveIndex(rs, userId, purpose, now) == Some(k)
  {
  }

  /** Applies a series of verification attempts, each a (code, time) pair. */
  function Attempts(rs: seq<OtpRecord>, userId: nat, purpose: string, tries: seq<(string, int)>): seq<OtpRecord>
    decreases |tries|
  {
    if tries == [] then rs
    else Attempts(Verify(rs, userId, tries[0].0, purpose, tries[0].1).1, userId, purpose, tries[1..])
  }

  /** Wrong attempts against the freshly issued row, before it expires, count
      one each and leave it the open row of the pair. */
  lemma {:induction false} WrongAttemptsCount(rs: seq<OtpRecord>, k: nat, userId: nat, purpose: string,
                                               tries: seq<(string, int)>)
    requires k < |rs| && ForPair(rs[k], userId, purpose) && !rs[k].isVerified
    requires forall j :: 0 <= j < |rs| && j != k && ForPair(rs[j], userId, purpose) ==> rs[j].isVerified
    requires rs[k].attempts + |tries| <= rs[k].maxAttempts
    requires forall t :: 0 <= t < |tries| ==> tries[t].0 != rs[k].otpCode && tries[t].1 < rs[k].expiresAt
    ensures var rs' := Attempts(rs, userId, purpose, tries);
            && |rs'| == |rs|
            && rs'[k] == rs[k].(attempts := rs[k].attempts + |tries|)
            && (forall j :: 0 <= j < |rs| && j != k && ForPair(rs'[j], userId, purpose) ==> rs'[j].isVerified)
    decreases |tries|
  {
    if tries != [] {
      var (c, t) := tries[0];
      OnlyOpenIsFound(rs, k, userId, purpose, t);
      var rs1 := Verify(rs, userId, c, purpose, t).1;
      assert rs1 == rs[k := rs[k].(attempts := rs[k].attempts + 1)];
      WrongAttemptsCount(rs1, k, userId, purpose, tries[1..]);
    }
  }

  /** Below the cap the correct code still works: after fewer than
      `maxAttempts` wrong tries of a freshly issued code, the correct code
      submitted before expiry is accepted, so a code can be compared
      `maxAttempts` times in all. */
  lemma CorrectCodeWithinCapAccepted(rs: seq<OtpRecord>, userId: nat, purpose: string, now: int, code: string,
                                     expiryMinutes: int, maxAttempts: nat, tries: seq<(string, int)>, later: int)
    requires |tries| < maxAttempts
    requires forall t :: 0 <= t < |tries| ==> tries[t].0 != code && tries[t].1 < now + expiryMinutes * 60 * 1000
    requires later < now + expiryMinutes * 60 * 1000
    ensures var rs' := Attempts(Issue(rs, userId, purpose, now, code, expiryMinutes, maxAttempts), userId, purpose, tries);
            Verify(rs', userId, code, purpose, later).0 == VerifyReply(true, OtpVerified)
  {
    var rs1 := Issue(rs, userId, purpose, now, code, expiryMinutes, maxAttempts);
    IssueLeavesOnlyNewOpen(rs, userId, purpose, now, code, expiryMinutes, maxAttempts);
    WrongAttemptsCount(rs1, |rs|, userId, purpose, tries);
    var rs' := Attempts(rs1, userId, purpose, tries);
    OnlyOpenIsFound(rs', |rs|, userId, purpose, later);
  }

  /** The attempt cap: once a freshly issued code has been tried wrongly
      `maxAttempts` times, even the correct code is refused with
      "Maximum OTP attempts exceeded" while the code has not expired. */
  lemma CapRefusesCorrectCode(rs: seq<OtpRecord>, userId: nat, purpose: string, now: int, code: string,
                              expiryMinutes: int, maxAttempts: nat, tries: seq<(string, int)>, later: int)
    requires |tries| == maxAttempts
    requires forall t :: 0 <= t < |tries| ==> tries[t].0 != code && tries[t].1 < now + expiryMinutes * 60 * 1000
    requires later < now + expiryMinutes * 60 * 1000
    ensures var rs' := Attempts(Issue(rs, userId, purpose, now, code, expiryMinutes, maxAttempts), userId, purpose, tries);
            Verify(rs', userId, code, purpose, later) == (VerifyReply(false, MaxAttemptsExceeded), rs')
  {
    var rs1 := Issue(rs, userId, purpose, now, code, expiryMinutes, maxAttempts);
    IssueLeavesOnlyNewOpen(rs, userId, purpose, now, code, expiryMinutes, maxAttempts);
    WrongAttemptsCount(rs1, |rs|, userId, purpose, tries);
    var rs' := Attempts(rs1, userId, purpose, tries);
    OnlyOpenIsFound(rs', |rs|, userId, purpose, later);
  }

  /** The server's OTP service: its configuration, read once from the
      environment, and the OTP table. */
  class OtpService {
    const otpExpiryMinutes: int
    const maxAttempts: int
    var records: seq<OtpRecord>

    ghost predicate Valid()
      reads this
    {
      WellFormed(records)
    }

    /** `OTP_EXPIRY_MINUTES` and `OTP_MAX_ATTEMPTS` as read from the
        environment (`None` when unset). */
    constructor (expiryEnv: Option<string>, maxAttemptsEnv: Option<string>)
      ensures otpExpiryMinutes == JsNumber.EnvIntOr(expiryEnv, DefaultExpiryMinutes)
      ensures maxAttempts == JsNumber.EnvIntOr(maxAttemptsEnv, DefaultMaxAttempts)
      ensures records == [] && Valid()
    {
      otpExpiryMinutes := JsNumber.EnvIntOr(expiryEnv, DefaultExpiryMinutes);
      maxAttempts := JsNumber.EnvIntOr(maxAttemptsEnv, DefaultMaxAttempts);
      records := [];
    }

    /** Issues a code for (userId, purpose): every unverified row of the pair
        is marked used, then the new row is inserted. `rand` is the value of
        `Math.random()`, `now` the clock, `nodeEnv` the `NODE_ENV` variable. */
    method CreateOtpVerification(userId: nat, purpose: string, now: int, rand: real, nodeEnv: Option<string>)
      returns (reply: IssueReply)
      requires Valid() && 0.0 <= rand < 1.0
      modifies this
      ensures Valid()
      ensures records == Issue(old(records), userId, purpose, now, GenerateOtp(rand), otpExpiryMinutes, maxAttempts)
      ensures reply.id == |old(records)| && reply.expiresAt == now + otpExpiryMinutes * 60 * 1000
      ensures reply.otpCode == if nodeEnv == Some("development") then Some(GenerateOtp(rand)) else None
    {
      var otpCode := GenerateOtp(rand);
      var expiresAt := now + otpExpiryMinutes * 60 * 1000;
      var i := 0;
      while i < |records|
        invariant 0 <= i <= |records| == |old(records)|
        invariant forall k :: 0 <= k < i ==> records[k] == Invalidated(old(records)[k], userId, purpose, now)
        invariant forall k :: i <= k < |records| ==> records[k] == old(records)[k]
      {
        if ForPair(records[i], userId, purpose) && !records[i].isVerified {
          records := records[i := records[i].(isVerified := true, verifiedAt := Some(now))];
        }
        i := i + 1;
      }
      assert records == InvalidatePair(old(records), userId, purpose, now);
      var id := |records|;
      records := records + [OtpRecord(id, userId, otpCode, purpose, expiresAt, 0, maxAttempts, false, None, now)];
      IssuePreservesWellFormed(old(records), userId, purpose, now, otpCode, otpExpiryMinutes, maxAttempts);
      reply := IssueReply(id, expiresAt, if nodeEnv == Some("development") then Some(otpCode) else None);
    }

    /** Checks `otpCode` for (userId, purpose) at time `now`: looks up the
        active row, refuses it at the cap, otherwise counts the attempt and
        marks the row verified when the code matches. */
    method VerifyOtpCode(userId: nat, otpCode: string, purpose: string, now: int) returns (reply: VerifyReply)
      requires Valid()
      modifies this
      ensures Valid()
      ensures (reply, records) == Verify(old(records), userId, otpCode, purpose, now)
    {
      VerifyPreservesWellFormed(records, userId, otpCode, purpose, now);
      var found := ActiveIndex(records, userId, purpose, now);
      if found.None? {
        return VerifyReply(false, NoValidOtp);
      }
      var i := found.value;
      if records[i].attempts >= records[i].maxAttempts {
        return VerifyReply(false, MaxAttemptsExceeded);
      }
      ghost var before := records;
      records := records[i := records[i].(attempts := records[i].attempts + 1)];
      if otpCode == records[i].otpCode {
        records := records[i := records[i].(isVerified := true, verifiedAt := Some(now))];
        assert records == before[i := before[i].(attempts := before[i].attempts + 1, isVerified := true, verifiedAt := Some(now))];
        reply := VerifyReply(true, OtpVerified);
      } else {
        reply := VerifyReply(false, InvalidOtp);
      }
    }
  }
}
