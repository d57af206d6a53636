/** The OTP record of core_main: its fields, defaults and the two checks on it. */
module OtpModels {
  import opened Base

  /** `max_allowed_attempts`; the environment override is not modelled. */
  const MaxAllowedAttempts: nat := 3

  const EmailType: string := "email"
  const PhoneType: string := "phone"

  /**
   * One row of the OTP table. `verificationType` is a plain string: the
   * `choices` of the column are not enforced when a row is created.
   * Times are integer seconds.
   */
  datatype OtpRecord = OtpRecord(
    verificationType: string,
    email: Option<string>,
    phone: Option<string>,
    otpCode: string,
    numOfAttempts: nat,
    createdAt: int,
    expiresAt: int,
    isVerified: bool)

  /** A freshly created record: no attempts yet, not verified, stamped now. */
  function NewOtpRecord(verificationType: string, email: Option<string>, phone: Option<string>,
                        otpCode: string, now: int, expiresAt: int): (r: OtpRecord)
    ensures r.numOfAttempts == 0 && !r.isVerified && r.createdAt == now
    ensures r.verificationType == verificationType && r.email == email && r.phone == phone
    ensures r.otpCode == otpCode && r.expiresAt == expiresAt
  {
    OtpRecord(verificationType, email, phone, otpCode, 0, now, expiresAt, false)
  }

  /** `is_expired`: strictly past the expiry instant. */
  predicate IsExpired(r: OtpRecord, now: int)
  {
    now > r.expiresAt
  }

  /** `is_invalid`: more attempts than allowed. */
  predicate IsInvalid(r: OtpRecord)
  {
    r.numOfAttempts > MaxAllowedAttempts
  }

  /** The expiry instant itself is still valid; one second later is not, and it stays expired. */
  lemma ExpiryBoundary(r: OtpRecord, now: int, later: int)
    requires now <= later
    ensures !IsExpired(r, r.expiresAt) && IsExpired(r, r.expiresAt + 1)
    ensures IsExpired(r, now) ==> IsExpired(r, later)
  {
  }

  /** Exactly `MaxAllowedAttempts` attempts is still valid; one more is not. */
  lemma AttemptLimitBoundary(r: OtpRecord)
    ensures r.numOfAttempts == MaxAllowedAttempts ==> !IsInvalid(r)
    ensures r.numOfAttempts == MaxAllowedAttempts + 1 ==> IsInvalid(r)
  {
  }

  /** How Python renders an optional string inside an f-string. */
  function Rendered(o: Option<string>): string
  {
    match o
    case None => "None"
    case Some(s) => s
  }

  /** `__str__`: "OTP for <identifier> : <code>". */
  function Str(r: OtpRecord): (s: string)
    ensures |s| >= 8 + 3 + |r.otpCode| && s[..8] == "OTP for "
    ensures s[|s| - |r.otpCode| - 3..] == " : " + r.otpCode
    ensures r.verificationType == EmailType ==> s[8..|s| - |r.otpCode| - 3] == Rendered(r.email)
    ensures r.verificationType != EmailType ==> s[8..|s| - |r.otpCode| - 3] == Rendered(r.phone)
  {
    var identifier := if r.verificationType == EmailType then r.email else r.phone;
    "OTP for " + Rendered(identifier) + " : " + r.otpCode
  }
}
