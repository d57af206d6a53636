/**
 * The request checks of core_users/serializers.py that carry a rule: the
 * length limits of the character fields, the password-match check, and
 * the hiding of 12th-grade marks in the education representation.
 */
module Serializers {
  import opened Base

  /** Why DRF rejects one character field. */
  datatype FieldError = Required | Blank | TooLong(maxLength: nat) | TooShort(minLength: nat)

  /** DRF's message for each rejection. */
  function ErrorText(e: FieldError): string
  {
    match e
    case Required => "This field is required."
    case Blank => "This field may not be blank."
    case TooLong(n) => "Ensure this field has no more than " + NatToString(n) + " characters."
    case TooShort(n) => "Ensure this field has at least " + NatToString(n) + " characters."
  }

  /** A `CharField` declaration: its name and optional length bounds. */
  datatype CharRule = CharRule(name: string, maxLength: Option<nat>, minLength: Option<nat>)

  /** The submitted body, field name to (already trimmed) text. */
  type Body = map<string, string>

  /** Within both bounds of the rule. */
  predicate LengthOk(r: CharRule, s: string)
  {
    (r.maxLength.Some? ==> |s| <= r.maxLength.value) && (r.minLength.Some? ==> |s| >= r.minLength.value)
  }

  /** One field's check: present, not blank, then the length bound. */
  function CheckField(r: CharRule, body: Body): (e: Option<FieldError>)
    ensures e.None? <==> r.name in body && body[r.name] != "" && LengthOk(r, body[r.name])
  {
    if r.name !in body then Some(Required)
    else if body[r.name] == "" then Some(Blank)
    else if r.maxLength.Some? && |body[r.name]| > r.maxLength.value then Some(TooLong(r.maxLength.value))
    else if r.minLength.Some? && |body[r.name]| < r.minLength.value then Some(TooShort(r.minLength.value))
    else None
  }

  /** Every entry of `errs` is the failure of some rule of `rules` on `body`. */
  ghost predicate Explained(rules: seq<CharRule>, body: Body, errs: map<string, FieldError>)
  {
    forall n :: n in errs ==> exists i :: 0 <= i < |rules| && rules[i].name == n && CheckField(rules[i], body) == Some(errs[n])
  }

  /** An explanation by the rules after the first is one by all the rules. */
  lemma {:induction false} ExplainedByTail(rules: seq<CharRule>, body: Body, errs: map<string, FieldError>)
    requires rules != [] && Explained(rules[1..], body, errs)
    ensures Explained(rules, body, errs)
  {
    forall n | n in errs ensures exists i :: 0 <= i < |rules| && rules[i].name == n && CheckField(rules[i], body) == Some(errs[n]) {
      var j :| 0 <= j < |rules| - 1 && rules[1..][j].name == n && CheckField(rules[1..][j], body) == Some(errs[n]);
      assert rules[j + 1] == rules[1..][j];
    }
  }

  /** The error map of a serializer: one entry per rejected field. */
  function Errors(rules: seq<CharRule>, body: Body): (errs: map<string, FieldError>)
    ensures Explained(rules, body, errs)
    ensures forall i :: 0 <= i < |rules| && CheckField(rules[i], body).Some? ==> rules[i].name in errs
  {
    if rules == [] then map[]
    else
      var rest := Errors(rules[1..], body);
      ExplainedByTail(rules, body, rest);
      assert forall i :: 1 <= i < |rules| ==> rules[i] == rules[1..][i - 1];
      match CheckField(rules[0], body)
      case None => rest
      case Some(e) => rest[rules[0].name := e]
  }

  /** A body passes the field checks exactly when every declared field passes its own. */
  lemma {:induction false} NoErrorsIff(rules: seq<CharRule>, body: Body)
    ensures Errors(rules, body) == map[] <==> forall i :: 0 <= i < |rules| ==> CheckField(rules[i], body).None?
  {
    if Errors(rules, body) == map[] {
      forall i | 0 <= i < |rules| ensures CheckField(rules[i], body).None? {
        assert rules[i].name !in Errors(rules, body);
      }
    } else {
      var n :| n in Errors(rules, body);
      var i :| 0 <= i < |rules| && rules[i].name == n && CheckField(rules[i], body) == Some(Errors(rules, body)[n]);
    }
  }

  lemma AllPassFour(rules: seq<CharRule>, body: Body)
    requires |rules| == 4
    ensures (forall i :: 0 <= i < |rules| ==> CheckField(rules[i], body).None?) <==>
      CheckField(rules[0], body).None? && CheckField(rules[1], body).None? &&
      CheckField(rules[2], body).None? && CheckField(rules[3], body).None?
  {
  }

  lemma AllPassTwo(rules: seq<CharRule>, body: Body)
    requires |rules| == 2
    ensures (forall i :: 0 <= i < |rules| ==> CheckField(rules[i], body).None?) <==>
      CheckField(rules[0], body).None? && CheckField(rules[1], body).None?
  {
  }

  /** `RegisterSerializer`: email (format not checked here), phone up to 10, names up to 30. */
  const RegisterRules: seq<CharRule> :=
    [CharRule("email", None, None), CharRule("phone", Some(10), None),
     CharRule("first_name", Some(30), None), CharRule("last_name", Some(30), None)]

  /** `VerifyOTPSerializer`: both codes up to 6 characters. */
  const VerifyOtpRules: seq<CharRule> :=
    [CharRule("email_otp", Some(6), None), CharRule("phone_otp", Some(6), None)]

  /** `ResendOTPSerializer`: email with no length limit; phone up to 10 characters. */
  const ResendOtpRules: seq<CharRule> :=
    [CharRule("email", None, None), CharRule("phone", Some(10), None)]

  /** `SetPasswordSerializer`: both passwords at least 8 characters. */
  const SetPasswordRules: seq<CharRule> :=
    [CharRule("password", None, Some(8)), CharRule("confirm_password", None, Some(8))]

  /** `LoginSerializer`: email and password, no bounds. */
  const LoginRules: seq<CharRule> :=
    [CharRule("email", None, None), CharRule("password", None, None)]

  /** A registration passes exactly when every field is given, non-blank, and within its limit. */
  lemma RegisterAccepts(body: Body)
    ensures Errors(RegisterRules, body) == map[] <==>
      "email" in body && body["email"] != "" &&
      "phone" in body && body["phone"] != "" && |body["phone"]| <= 10 &&
      "first_name" in body && body["first_name"] != "" && |body["first_name"]| <= 30 &&
      "last_name" in body && body["last_name"] != "" && |body["last_name"]| <= 30
  {
    NoErrorsIff(RegisterRules, body);
    AllPassFour(RegisterRules, body);
  }

  /** OTP codes of up to six characters pass. */
  lemma VerifyOtpAccepts(body: Body)
    ensures Errors(VerifyOtpRules, body) == map[] <==>
      "email_otp" in body && body["email_otp"] != "" && |body["email_otp"]| <= 6 &&
      "phone_otp" in body && body["phone_otp"] != "" && |body["phone_otp"]| <= 6
  {
    NoErrorsIff(VerifyOtpRules, body);
    AllPassTwo(VerifyOtpRules, body);
  }

  lemma ResendOtpAccepts(body: Body)
    ensures Errors(ResendOtpRules, body) == map[] <==>
      "email" in body && body["email"] != "" &&
      "phone" in body && body["phone"] != "" && |body["phone"]| <= 10
  {
    NoErrorsIff(ResendOtpRules, body);
    AllPassTwo(ResendOtpRules, body);
  }

  /** The outcome of `SetPasswordSerializer.is_valid`. */
  datatype Validation = Valid | FieldErrors(errors: map<string, FieldError>) | NonFieldError(message: string)

  const PasswordMismatch: string := "Password and Confirm Password doesn't match"

  /** Field checks first; `validate` compares the two passwords only when they pass. */
  function SetPasswordValidation(body: Body): Validation
  {
    var errs := Errors(SetPasswordRules, body);
    if errs != map[] then FieldErrors(errs)
    else
      NoErrorsIff(SetPasswordRules, body);
      assert CheckField(SetPasswordRules[0], body).None? && CheckField(SetPasswordRules[1], body).None?;
      if body["password"] != body["confirm_password"] then NonFieldError(PasswordMismatch)
      else Valid
  }

  /**
   * Accepted exactly when both passwords have at least 8 characters and are
   * equal; the mismatch is reported only for passwords that passed their
   * own checks.
   */
  lemma {:induction false} SetPasswordAccepts(body: Body)
    ensures SetPasswordValidation(body) == Valid <==>
      "password" in body && "confirm_password" in body &&
      |body["password"]| >= 8 && body["password"] == body["confirm_password"]
    ensures SetPasswordValidation(body) == NonFieldError(PasswordMismatch) <==>
      "password" in body && "confirm_password" in body &&
      |body["password"]| >= 8 && |body["confirm_password"]| >= 8 && body["password"] != body["confirm_password"]
  {
    NoErrorsIff(SetPasswordRules, body);
    AllPassTwo(SetPasswordRules, body);
  }

  /** The seven keys hidden while the 12th-grade results are awaited. */
  const TwelfthMarkKeys: seq<string> :=
    ["subject1_marks_12th", "subject2_marks_12th", "subject3_marks_12th", "subject4_marks_12th",
     "subject5_marks_12th", "subject6_marks_12th", "total_marks_12th"]

  /**
   * `UserEducationDetailSerializer.to_representation`: starting from the
   * base representation, pop each 12th-mark key when `is_appearing`.
   */
  method ToRepresentation<V>(base: map<string, V>, isAppearing: bool) returns (data: map<string, V>)
    ensures forall k :: k in data <==> k in base && !(isAppearing && k in TwelfthMarkKeys)
    ensures forall k :: k in data ==> data[k] == base[k]
    ensures !isAppearing ==> data == base
  {
    data := base;
    if isAppearing {
      var i := 0;
      while i < |TwelfthMarkKeys|
        invariant 0 <= i <= |TwelfthMarkKeys|
        invariant forall k :: k in data <==> k in base && k !in TwelfthMarkKeys[..i]
        invariant forall k :: k in data ==> data[k] == base[k]
      {
        data := data - {TwelfthMarkKeys[i]};
        i := i + 1;
      }
      assert TwelfthMarkKeys[..i] == TwelfthMarkKeys;
    }
  }
}
