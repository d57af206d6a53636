/**
 * `OTPServices`: creating an OTP record for one channel and verifying a
 * submitted code against the newest unverified record of that channel.
 */
module OtpServices {
  import opened Base
  import opened OtpModels
  import opened Store

  /** `otp_expiry_minutes`, the default when the environment does not set it. */
  const OtpExpiryMinutes: nat := 5

  /** The same lifetime in seconds, the unit of the model's clock. */
  const OtpLifetime: int := OtpExpiryMinutes * 60

  /** `generate_code`, given the six values `random.randint(0, 9)` drew. */
  function GenerateCode(draws: seq<nat>): (code: string)
    requires |draws| == 6 && forall i :: 0 <= i < 6 ==> draws[i] <= 9
    ensures |code| == 6 && AllDigits(code)
    ensures forall i :: 0 <= i < 6 ==> DigitValue(code[i]) == draws[i]
  {
    seq(6, i requires 0 <= i < 6 => DigitChar(draws[i]))
  }

  /** The record `generate_otp_record` stores: the identifier goes to `email` only for type "email". */
  function ChannelRecord(verificationType: string, identifier: string, code: string, now: int): (r: OtpRecord)
    ensures verificationType == EmailType ==> r.email == Some(identifier) && r.phone == None
    ensures verificationType != EmailType ==> r.phone == Some(identifier) && r.email == None
    ensures r.verificationType == verificationType && r.otpCode == code
    ensures r.createdAt == now && r.expiresAt == now + OtpLifetime
    ensures r.numOfAttempts == 0 && !r.isVerified
  {
    if verificationType == EmailType then
      NewOtpRecord(verificationType, Some(identifier), None, code, now, now + OtpLifetime)
    else
      NewOtpRecord(verificationType, None, Some(identifier), code, now, now + OtpLifetime)
  }

  /** `generate_otp_record`: one new row; older rows for the channel stay. */
  method GenerateOtpRecord(db: Database, verificationType: string, identifier: string,
                           draws: seq<nat>, now: int) returns (id: Id, code: string)
    requires db.Valid()
    requires |draws| == 6 && forall i :: 0 <= i < 6 ==> draws[i] <= 9
    modifies db`otps, db`nextId
    ensures db.Valid()
    ensures code == GenerateCode(draws)
    ensures id !in old(db.otps) && db.otps == old(db.otps)[id := ChannelRecord(verificationType, identifier, code, now)]
  {
    code := GenerateCode(draws);
    id := db.CreateOtp(ChannelRecord(verificationType, identifier, code, now));
  }

  /**
   * The filter of `verify_otp`: same type, the identifier in the column of
   * that type and NULL in the other (both NULL for any other type), and
   * not verified.
   */
  predicate Candidate(r: OtpRecord, verificationType: string, identifier: string)
  {
    r.verificationType == verificationType &&
    r.email == (if verificationType == EmailType then Some(identifier) else None) &&
    r.phone == (if verificationType == PhoneType then Some(identifier) else None) &&
    !r.isVerified
  }

  /** `c` is a candidate that `order_by('-created_at').first()` may return. */
  ghost predicate IsNewest(otps: map<Id, OtpRecord>, verificationType: string, identifier: string, c: Id)
  {
    c in otps && Candidate(otps[c], verificationType, identifier) &&
    forall k :: k in otps && Candidate(otps[k], verificationType, identifier) ==>
      otps[k].createdAt <= otps[c].createdAt
  }

  ghost predicate NoCandidate(otps: map<Id, OtpRecord>, verificationType: string, identifier: string)
  {
    forall k :: k in otps ==> !Candidate(otps[k], verificationType, identifier)
  }

  /** The ordered query: None exactly when no row passes the filter, otherwise a newest one. */
  method NewestCandidate(otps: map<Id, OtpRecord>, verificationType: string, identifier: string)
    returns (newest: Option<Id>)
    ensures newest.None? <==> NoCandidate(otps, verificationType, identifier)
    ensures newest.Some? ==> IsNewest(otps, verificationType, identifier, newest.value)
  {
    newest := None;
    var rest := otps.Keys;
    while rest != {}
      invariant rest <= otps.Keys
      invariant newest.None? ==> forall k :: k in otps.Keys - rest ==> !Candidate(otps[k], verificationType, identifier)
      invariant newest.Some? ==> newest.value in otps && Candidate(otps[newest.value], verificationType, identifier)
      invariant newest.Some? ==> forall k :: k in otps.Keys - rest && Candidate(otps[k], verificationType, identifier) ==>
        otps[k].createdAt <= otps[newest.value].createdAt
      decreases rest
    {
      var k :| k in rest;
      if Candidate(otps[k], verificationType, identifier) &&
         (newest.None? || otps[newest.value].createdAt < otps[k].createdAt) {
        newest := Some(k);
      }
      rest := rest - {k};
    }
  }

  /** The outcome of the three checks, in the order `verify_otp` makes them. */
  datatype Verdict = Expired | NotValid | Mismatch | Match

  function Check(r: OtpRecord, otp: string, now: int): (v: Verdict)
    ensures v == Match <==> !IsExpired(r, now) && !IsInvalid(r) && otp == r.otpCode
    ensures v == Expired <==> IsExpired(r, now)
    ensures v == NotValid <==> !IsExpired(r, now) && IsInvalid(r)
  {
    if IsExpired(r, now) then Expired
    else if IsInvalid(r) then NotValid
    else if otp != r.otpCode then Mismatch
    else Match
  }

  /** The message `verify_otp` returns with each verdict; only a match reads as a success. */
  function Message(v: Verdict): (m: string)
    ensures m == "OTP Verified Successfully!" <==> v == Match
  {
    match v
    case Expired => "OTP has expired"
    case NotValid => "OTP is not valid"
    case Mismatch => "OTP did not match"
    case Match => "OTP Verified Successfully!"
  }

  /**
   * What `verify_otp` does: return `(ok, message)`, or raise. With no
   * candidate `.first()` gives None and the next attribute access raises
   * `AttributeError`, which the `except DoesNotExist` does not catch.
   */
  datatype VerifyResult = Returned(ok: bool, message: string) | Raised(exception: string)

  /**
   * `verify_otp`. On a match the record is marked verified, saved and then
   * deleted; on a mismatch the attempt counter is raised on the Python
   * object only, so the store is unchanged.
   */
  method VerifyOtp(db: Database, verificationType: string, identifier: string, otp: string, now: int)
    returns (res: VerifyResult, chosen: Option<Id>)
    requires db.Valid()
    modifies db`otps
    ensures db.Valid()
    ensures chosen.None? <==> NoCandidate(old(db.otps), verificationType, identifier)
    ensures chosen.None? ==> res == Raised("AttributeError") && db.otps == old(db.otps)
    ensures chosen.Some? ==>
      var c := chosen.value;
      IsNewest(old(db.otps), verificationType, identifier, c) &&
      var v := Check(old(db.otps)[c], otp, now);
      res == Returned(v == Match, Message(v)) &&
      db.otps == if v == Match then old(db.otps) - {c} else old(db.otps)
  {
    chosen := NewestCandidate(db.otps, verificationType, identifier);
    if chosen.None? {
      return Raised("AttributeError"), chosen;
    }
    var c := chosen.value;
    var record := db.otps[c];
    var v := Check(record, otp, now);
    if v != Match {
      if v == Mismatch {
        record := record.(numOfAttempts := record.numOfAttempts + 1);
      }
      return Returned(false, Message(v)), chosen;
    }
    db.otps := db.otps[c := record.(isVerified := true)];
    db.otps := db.otps - {c};
    res := Returned(true, Message(Match));
  }

  /** Every stored record is as created: no saved attempts and not verified. */
  ghost predicate AsCreated(otps: map<Id, OtpRecord>)
  {
    forall k :: k in otps ==> otps[k].numOfAttempts == 0 && !otps[k].isVerified
  }

  /** Creating a record keeps every stored record as created. */
  lemma GenerateKeepsAsCreated(otps: map<Id, OtpRecord>, id: Id, verificationType: string,
                               identifier: string, code: string, now: int)
    requires AsCreated(otps)
    ensures AsCreated(otps[id := ChannelRecord(verificationType, identifier, code, now)])
  {
  }

  /** Removing the matched record keeps the rest as created. */
  lemma RemoveKeepsAsCreated(otps: map<Id, OtpRecord>, c: Id)
    requires AsCreated(otps)
    ensures AsCreated(otps - {c})
  {
  }

  /**
   * Since no attempt is ever saved, a record that was found never reaches
   * the attempt limit: "OTP is not valid" cannot be answered.
   */
  lemma {:induction false} AttemptLimitUnreachable(otps: map<Id, OtpRecord>, c: Id, otp: string, now: int)
    requires AsCreated(otps) && c in otps
    ensures Check(otps[c], otp, now) != NotValid
  {
    assert otps[c].numOfAttempts == 0;
    AttemptLimitBoundary(otps[c]);
  }

  /** With no stored rows newer than it, a freshly created record is the one checked next. */
  lemma {:induction false} FreshRecordIsChecked(otps: map<Id, OtpRecord>, id: Id, verificationType: string,
                                                identifier: string, code: string, now: int, c: Id)
    requires verificationType == EmailType || verificationType == PhoneType
    requires id !in otps && forall k :: k in otps ==> otps[k].createdAt < now
    requires IsNewest(otps[id := ChannelRecord(verificationType, identifier, code, now)], verificationType, identifier, c)
    ensures c == id
  {
    var otps' := otps[id := ChannelRecord(verificationType, identifier, code, now)];
    assert Candidate(otps'[id], verificationType, identifier);
    assert otps'[id].createdAt <= otps'[c].createdAt;
  }

  /**
   * A record created for a type other than "email" or "phone" keeps its
   * identifier in `phone`, but the filter then asks for a NULL phone: it
   * can never be found.
   */
  lemma OtherTypeNeverFound(verificationType: string, identifier: string, code: string, now: int)
    requires verificationType != EmailType && verificationType != PhoneType
    ensures !Candidate(ChannelRecord(verificationType, identifier, code, now), verificationType, identifier)
  {
  }
}
