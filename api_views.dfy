/**
 * The registration and login endpoints of core_users/api_views.py: each
 * validates its body, calls the services in order and maps their results
 * to an HTTP status and a JSON body.
 */
module ApiViews {
  import opened Base
  import opened AuthModels
  import opened OtpModels
  import opened Profiles
  import opened Store
  import opened OtpServices
  import opened AuthServices
  import opened Serializers

  datatype Json = JStr(s: string) | JInt(i: int) | JBool(b: bool) | JNull | JList(items: seq<Json>) | JObject(fields: map<string, Json>)

  /** An HTTP response. Bodies the framework writes itself (404, 500) are left empty. */
  datatype Response = Response(status: nat, body: map<string, Json>)

  function Detail(status: nat, message: string): (r: Response)
    ensures r.status == status && r.body == map["detail" := JStr(message)]
  {
    Response(status, map["detail" := JStr(message)])
  }

  /** DRF's 400 body for rejected fields: each field with its list of messages. */
  function ErrorBody(errs: map<string, FieldError>): (body: map<string, Json>)
    ensures body.Keys == errs.Keys
    ensures forall n :: n in body ==> body[n] == JList([JStr(ErrorText(errs[n]))])
  {
    map n | n in errs :: JList([JStr(ErrorText(errs[n]))])
  }

  /** `CustomUserSerializer(user).data`. */
  function UserJson(id: Id, u: User): Json
  {
    JObject(map[
      "id" := JInt(id), "email" := JStr(u.email), "phone" := JStr(u.phone),
      "first_name" := JStr(u.firstName), "last_name" := JStr(u.lastName),
      "is_admitted" := JBool(u.isAdmitted),
      "admission_date" := match u.admissionDate case None => JNull case Some(t) => JInt(t)])
  }

  predicate GoodDraws(draws: seq<nat>)
  {
    |draws| == 6 && forall i :: 0 <= i < 6 ==> draws[i] <= 9
  }

  /**
   * `StartRegistrationAPIView.post`: validate, start the registration, and
   * only when that succeeds create one OTP record per channel.
   */
  method StartRegistrationView(db: Database, body: Body, now: int, emailDraws: seq<nat>, phoneDraws: seq<nat>)
    returns (resp: Response)
    requires db.Valid() && GoodDraws(emailDraws) && GoodDraws(phoneDraws)
    modifies db`sessions, db`otps, db`nextId
    ensures db.Valid()
    ensures Errors(RegisterRules, body) == map[] ==>
      "email" in body && "phone" in body && "first_name" in body && "last_name" in body
    ensures Errors(RegisterRules, body) != map[] ==>
      resp == Response(400, ErrorBody(Errors(RegisterRules, body))) &&
      db.sessions == old(db.sessions) && db.otps == old(db.otps)
    ensures Errors(RegisterRules, body) == map[] && EmailTaken(db.users, body["email"]) ==>
      resp == Detail(400, "Email already registered") && db.sessions == old(db.sessions) && db.otps == old(db.otps)
    ensures Errors(RegisterRules, body) == map[] && !EmailTaken(db.users, body["email"]) &&
            PhoneTaken(db.users, body["phone"]) ==>
      resp == Detail(400, "Phone already registered") && db.sessions == old(db.sessions) && db.otps == old(db.otps)
    ensures resp.status == 201 <==>
      Errors(RegisterRules, body) == map[] && !EmailTaken(db.users, body["email"]) && !PhoneTaken(db.users, body["phone"])
    ensures resp.status == 201 ==>
      (exists s: Id :: s !in old(db.sessions) &&
        resp.body == map["session_id" := JInt(s), "detail" := JStr("Registration Process Started! OTPs Sent")] &&
        db.sessions == old(db.sessions)[s := NewSession(body["email"], body["phone"], body["first_name"],
                                                        body["last_name"], now + RegistrationLifetime)]) &&
      exists e: Id, p: Id :: e !in old(db.otps) && p !in old(db.otps) && e != p &&
        db.otps == old(db.otps)[e := ChannelRecord(EmailType, body["email"], GenerateCode(emailDraws), now)]
                               [p := ChannelRecord(PhoneType, body["phone"], GenerateCode(phoneDraws), now)]
  {
    var errs := Errors(RegisterRules, body);
    if errs != map[] {
      return Response(400, ErrorBody(errs));
    }
    RegisterAccepts(body);
    var email, phone := body["email"], body["phone"];
    var ok, msg, session := StartRegistration(db, email, phone, body["first_name"], body["last_name"], now);
    if !ok {
      return Detail(400, msg);
    }
    var e, _ := GenerateOtpRecord(db, EmailType, email, emailDraws, now);
    var p, _ := GenerateOtpRecord(db, PhoneType, phone, phoneDraws, now);
    resp := Response(201, map["session_id" := JInt(session.value),
                              "detail" := JStr("Registration Process Started! OTPs Sent")]);
  }

  /** The session after the view records the channels whose check succeeded. */
  function Recorded(s: RegistrationSession, emailOk: bool, phoneOk: bool): (t: RegistrationSession)
    ensures t.isEmailVerified == (s.isEmailVerified || emailOk)
    ensures t.isPhoneVerified == (s.isPhoneVerified || phoneOk)
    ensures t.email == s.email && t.phone == s.phone && t.expiresAt == s.expiresAt
  {
    var s1 := if emailOk then MarkVerified(s, "email") else s;
    if phoneOk then MarkVerified(s1, "phone") else s1
  }

  /** Removing a record of another type changes neither the candidates nor the newest one. */
  lemma {:induction false} RemoveOtherType(otps: map<Id, OtpRecord>, c: Id, verificationType: string, identifier: string)
    requires c in otps && otps[c].verificationType != verificationType
    ensures NoCandidate(otps - {c}, verificationType, identifier) <==> NoCandidate(otps, verificationType, identifier)
    ensures forall k :: IsNewest(otps - {c}, verificationType, identifier, k) <==> IsNewest(otps, verificationType, identifier, k)
  {
    var rest := otps - {c};
    assert !Candidate(otps[c], verificationType, identifier);
    assert forall k :: k in otps && Candidate(otps[k], verificationType, identifier) ==> k in rest && rest[k] == otps[k];
    assert forall k :: k in rest ==> k in otps && rest[k] == otps[k];
  }

  /**
   * What `verify_otp` answers when `chosen` is the row its ordered query
   * picked: an exception when nothing passes the filter, otherwise the
   * verdict on the newest candidate.
   */
  ghost predicate Verified(otps: map<Id, OtpRecord>, verificationType: string, identifier: string,
                           otp: string, now: int, res: VerifyResult, chosen: Option<Id>)
  {
    (chosen.None? <==> NoCandidate(otps, verificationType, identifier)) &&
    (chosen.None? ==> res == Raised("AttributeError")) &&
    (chosen.Some? ==>
      IsNewest(otps, verificationType, identifier, chosen.value) &&
      var v := Check(otps[chosen.value], otp, now);
      res == Returned(v == Match, Message(v)))
  }

  /** The `otps` table after `verify_otp`: the matched row is deleted, nothing else changes. */
  function AfterVerify(otps: map<Id, OtpRecord>, res: VerifyResult, chosen: Option<Id>): (after: map<Id, OtpRecord>)
    ensures after.Keys <= otps.Keys && forall k :: k in after ==> after[k] == otps[k]
    ensures res.Returned? && res.ok && chosen.Some? ==> chosen.value !in after
    ensures after.Keys == otps.Keys - (if res.Returned? && res.ok && chosen.Some? then {chosen.value} else {})
  {
    if res.Returned? && res.ok && chosen.Some? then otps - {chosen.value} else otps
  }

  /**
   * The two `verify_otp` calls of `VerifyOTPAPIView.post`, email first; an
   * exception from the email check means the phone check never runs. The
   * phone check runs on the table the email check left, which has the same
   * phone candidates.
   */
  method VerifyChannels(db: Database, s: RegistrationSession, emailOtp: string, phoneOtp: string, now: int)
    returns (e: VerifyResult, p: VerifyResult, ghost ce: Option<Id>, ghost cp: Option<Id>)
    requires db.Valid()
    modifies db`otps
    ensures db.Valid()
    ensures Verified(old(db.otps), EmailType, s.email, emailOtp, now, e, ce)
    ensures e.Raised? ==> p.Raised? && db.otps == old(db.otps)
    ensures e.Returned? ==>
      Verified(old(db.otps), PhoneType, s.phone, phoneOtp, now, p, cp) &&
      db.otps == AfterVerify(AfterVerify(old(db.otps), e, ce), p, cp)
  {
    ghost var otps0 := db.otps;
    var c;
    e, c := VerifyOtp(db, EmailType, s.email, emailOtp, now);
    ce := c;
    if e.Raised? {
      return e, Raised(""), ce, None;
    }
    ghost var otps1 := db.otps;
    assert otps1 == AfterVerify(otps0, e, ce);
    if e.ok {
      RemoveOtherType(otps0, ce.value, PhoneType, s.phone);
    }
    p, c := VerifyOtp(db, PhoneType, s.phone, phoneOtp, now);
    cp := c;
    if cp.Some? {
      assert otps1[cp.value] == otps0[cp.value];
    }
  }

  /**
   * `VerifyOTPAPIView.post`. Both channels are checked, email first; an
   * exception from either check is a 500 that leaves the session alone.
   * Otherwise each channel's flag is set exactly when its own check passed.
   */
  method VerifyOtpView(db: Database, sessionId: Id, body: Body, now: int)
    returns (resp: Response, ghost emailResult: VerifyResult, ghost phoneResult: VerifyResult,
             ghost emailKey: Option<Id>, ghost phoneKey: Option<Id>)
    requires db.Valid()
    modifies db`sessions, db`otps
    ensures db.Valid()
    ensures Errors(VerifyOtpRules, body) != map[] ==>
      resp == Response(400, ErrorBody(Errors(VerifyOtpRules, body))) &&
      db.sessions == old(db.sessions) && db.otps == old(db.otps)
    ensures Errors(VerifyOtpRules, body) == map[] && sessionId !in old(db.sessions) ==>
      resp == Response(404, map[]) && db.sessions == old(db.sessions) && db.otps == old(db.otps)
    ensures Errors(VerifyOtpRules, body) == map[] && sessionId in old(db.sessions) ==>
      var s := old(db.sessions)[sessionId];
      "email_otp" in body && "phone_otp" in body &&
      Verified(old(db.otps), EmailType, s.email, body["email_otp"], now, emailResult, emailKey) &&
      (emailResult.Raised? ==> phoneResult.Raised? && db.otps == old(db.otps)) &&
      (emailResult.Returned? ==>
        Verified(old(db.otps), PhoneType, s.phone, body["phone_otp"], now, phoneResult, phoneKey) &&
        db.otps == AfterVerify(AfterVerify(old(db.otps), emailResult, emailKey), phoneResult, phoneKey)) &&
      (resp.status == 500 <==> emailResult.Raised? || phoneResult.Raised?) &&
      (resp.status == 500 ==> resp.body == map[] && db.sessions == old(db.sessions)) &&
      (resp.status != 500 ==>
        db.sessions == old(db.sessions)[sessionId := Recorded(s, emailResult.ok, phoneResult.ok)] &&
        (resp.status == 200 <==> emailResult.ok && phoneResult.ok) &&
        (resp.status == 200 ==> resp == Detail(200, "Both OTPs verified.")) &&
        (resp.status != 200 ==> resp == Response(400, map["email_otp" := JStr(emailResult.message),
                                                          "phone_otp" := JStr(phoneResult.message)])))
  {
    emailResult, phoneResult, emailKey, phoneKey := Raised(""), Raised(""), None, None;
    var errs := Errors(VerifyOtpRules, body);
    if errs != map[] {
      return Response(400, ErrorBody(errs)), emailResult, phoneResult, emailKey, phoneKey;
    }
    VerifyOtpAccepts(body);
    if sessionId !in db.sessions {
      return Response(404, map[]), emailResult, phoneResult, emailKey, phoneKey;
    }
    var s := db.sessions[sessionId];
    var e, p;
    e, p, emailKey, phoneKey := VerifyChannels(db, s, body["email_otp"], body["phone_otp"], now);
    emailResult, phoneResult := e, p;
    if e.Raised? || p.Raised? {
      return Response(500, map[]), emailResult, phoneResult, emailKey, phoneKey;
    }
    ghost var sessions0, otps1 := db.sessions, db.otps;
    if e.ok {
      var _, _ := UpdateVerificationStatus(db, sessionId, "email");
    }
    assert db.sessions == sessions0[sessionId := Recorded(s, e.ok, false)];
    if p.ok {
      var _, _ := UpdateVerificationStatus(db, sessionId, "phone");
      Rewrite(sessions0, sessionId, Recorded(s, e.ok, false), Recorded(s, e.ok, true));
    }
    assert db.sessions == sessions0[sessionId := Recorded(s, e.ok, p.ok)] && db.otps == otps1;
    if e.ok && p.ok {
      return Detail(200, "Both OTPs verified."), emailResult, phoneResult, emailKey, phoneKey;
    }
    resp := Response(400, map["email_otp" := JStr(e.message), "phone_otp" := JStr(p.message)]);
  }

  /** `ResendOTPAPIView.post`: two fresh records, whatever the sessions. */
  method ResendOtpView(db: Database, body: Body, now: int, emailDraws: seq<nat>, phoneDraws: seq<nat>)
    returns (resp: Response)
    requires db.Valid() && GoodDraws(emailDraws) && GoodDraws(phoneDraws)
    modifies db`otps, db`nextId
    ensures db.Valid()
    ensures Errors(ResendOtpRules, body) == map[] ==> "email" in body && "phone" in body
    ensures Errors(ResendOtpRules, body) != map[] ==>
      resp == Response(400, ErrorBody(Errors(ResendOtpRules, body))) && db.otps == old(db.otps)
    ensures Errors(ResendOtpRules, body) == map[] ==>
      resp == Detail(201, "OTPs Sent") &&
      exists e: Id, p: Id :: e !in old(db.otps) && p !in old(db.otps) && e != p &&
        db.otps == old(db.otps)[e := ChannelRecord(EmailType, body["email"], GenerateCode(emailDraws), now)]
                               [p := ChannelRecord(PhoneType, body["phone"], GenerateCode(phoneDraws), now)]
  {
    var errs := Errors(ResendOtpRules, body);
    if errs != map[] {
      return Response(400, ErrorBody(errs));
    }
    ResendOtpAccepts(body);
    var e, _ := GenerateOtpRecord(db, EmailType, body["email"], emailDraws, now);
    var p, _ := GenerateOtpRecord(db, PhoneType, body["phone"], phoneDraws, now);
    resp := Detail(201, "OTPs Sent");
  }

  /** The 400 body of a failed `SetPasswordSerializer`. */
  function ValidationBody(v: Validation): map<string, Json>
  {
    match v
    case Valid => map[]
    case FieldErrors(errs) => ErrorBody(errs)
    case NonFieldError(msg) => map["non_field_errors" := JList([JStr(msg)])]
  }

  /**
   * The part of `SetPasswordAPIView.post` after validation: the call of
   * `complete_registration` and the answer built from its result. Each
   * failure is a 400 with its own message; 201 comes exactly with a
   * registration.
   */
  method AnswerRegistration(db: Database, sessionId: Id, password: string, now: int, year: nat)
    returns (resp: Response, ghost msg: string, ghost u: Id, ghost a: Id, ghost e: Id)
    requires db.Valid() && Linked(db.users, db.applications, db.educations)
    modifies db`users, db`applications, db`educations, db`sessions, db`nextId
    ensures db.Valid() && Linked(db.users, db.applications, db.educations)
    ensures resp.status != 201 ==> resp == Detail(400, msg) && db.sessions == old(db.sessions)
    ensures sessionId !in old(db.sessions) ==>
      msg == "No active Registration Session found" && db.users == old(db.users)
    ensures sessionId in old(db.sessions) && SessionExpired(old(db.sessions)[sessionId], now) ==>
      msg == "Registration Session has Expired" && db.users == old(db.users)
    ensures sessionId in old(db.sessions) && !SessionExpired(old(db.sessions)[sessionId], now) &&
            !Ready(old(db.sessions)[sessionId], now) ==>
      msg == "Email or Phone verification still pending" && db.users == old(db.users)
    ensures !(sessionId in old(db.sessions) && Ready(old(db.sessions)[sessionId], now)) ==>
      db.applications == old(db.applications) && db.educations == old(db.educations)
    ensures sessionId in old(db.sessions) && Ready(old(db.sessions)[sessionId], now) ==>
      var s := old(db.sessions)[sessionId];
      (EmailTaken(old(db.users), s.email) ==>
        msg == ErrorMessage(UniqueViolation("email")) && db.users == old(db.users) &&
        db.applications == old(db.applications) && db.educations == old(db.educations)) &&
      (!EmailTaken(old(db.users), s.email) && PhoneTaken(old(db.users), s.phone) ==>
        msg == ErrorMessage(UniqueViolation("phone")) && db.users == old(db.users) &&
        db.applications == old(db.applications) && db.educations == old(db.educations)) &&
      (!EmailTaken(old(db.users), s.email) && !PhoneTaken(old(db.users), s.phone) ==>
        u !in old(db.users) && db.users == old(db.users)[u := RegisteredUser(s, password, now)]) &&
      (!EmailTaken(old(db.users), s.email) && !PhoneTaken(old(db.users), s.phone) && resp.status != 201 ==>
        ApplicationFailure(old(db.applications), u, year).Some? &&
        msg == ErrorMessage(ApplicationFailure(old(db.applications), u, year).value) &&
        ProfilesFailed(old(db.applications), old(db.educations), db.applications, db.educations, u, year, a)) &&
      (resp.status != 201 ==> IsErrorMessage(msg))
    ensures resp.status == 201 <==> Registers(old(db.sessions), old(db.users), old(db.applications), sessionId, now, year)
    ensures resp.status == 201 ==>
      sessionId in old(db.sessions) && db.sessions == old(db.sessions) - {sessionId} &&
      var s := old(db.sessions)[sessionId];
      resp == Response(201, map["detail" := JStr("User Registered Successfully"),
                                "user" := UserJson(u, RegisteredUser(s, password, now))]) &&
      ProfilesWritten(old(db.applications), old(db.educations), db.applications, db.educations, u, year, a, e)
  {
    var ok, message, user;
    ok, message, user, u, a, e := CompleteRegistration(db, sessionId, password, now, year);
    msg := message;
    if !ok {
      return Detail(400, message), msg, u, a, e;
    }
    resp := Response(201, map["detail" := JStr("User Registered Successfully"),
                              "user" := UserJson(user.value, db.users[user.value])]);
  }

  /**
   * `SetPasswordAPIView.post`: only the password goes on to
   * `complete_registration`; its failure message is the 400 detail.
   */
  method SetPasswordView(db: Database, sessionId: Id, body: Body, now: int, year: nat)
    returns (resp: Response, ghost msg: string, ghost u: Id, ghost a: Id, ghost e: Id)
    requires db.Valid() && Linked(db.users, db.applications, db.educations)
    modifies db`users, db`applications, db`educations, db`sessions, db`nextId
    ensures db.Valid() && Linked(db.users, db.applications, db.educations)
    ensures SetPasswordValidation(body) != Valid ==>
      resp == Response(400, ValidationBody(SetPasswordValidation(body))) &&
      db.users == old(db.users) && db.sessions == old(db.sessions) &&
      db.applications == old(db.applications) && db.educations == old(db.educations)
    ensures SetPasswordValidation(body) == Valid ==>
      "password" in body &&
      (resp.status != 201 ==> resp == Detail(400, msg) && db.sessions == old(db.sessions)) &&
      (sessionId !in old(db.sessions) ==>
        msg == "No active Registration Session found" && db.users == old(db.users)) &&
      (sessionId in old(db.sessions) && SessionExpired(old(db.sessions)[sessionId], now) ==>
        msg == "Registration Session has Expired" && db.users == old(db.users)) &&
      (sessionId in old(db.sessions) && !SessionExpired(old(db.sessions)[sessionId], now) &&
       !Ready(old(db.sessions)[sessionId], now) ==>
        msg == "Email or Phone verification still pending" && db.users == old(db.users)) &&
      (!(sessionId in old(db.sessions) && Ready(old(db.sessions)[sessionId], now)) ==>
        db.applications == old(db.applications) && db.educations == old(db.educations)) &&
      (sessionId in old(db.sessions) && Ready(old(db.sessions)[sessionId], now) ==>
        var s := old(db.sessions)[sessionId];
        (EmailTaken(old(db.users), s.email) ==>
          msg == ErrorMessage(UniqueViolation("email")) && db.users == old(db.users) &&
          db.applications == old(db.applications) && db.educations == old(db.educations)) &&
        (!EmailTaken(old(db.users), s.email) && PhoneTaken(old(db.users), s.phone) ==>
          msg == ErrorMessage(UniqueViolation("phone")) && db.users == old(db.users) &&
          db.applications == old(db.applications) && db.educations == old(db.educations)) &&
        (!EmailTaken(old(db.users), s.email) && !PhoneTaken(old(db.users), s.phone) ==>
          u !in old(db.users) && db.users == old(db.users)[u := RegisteredUser(s, body["password"], now)]) &&
        (!EmailTaken(old(db.users), s.email) && !PhoneTaken(old(db.users), s.phone) && resp.status != 201 ==>
          ApplicationFailure(old(db.applications), u, year).Some? &&
          msg == ErrorMessage(ApplicationFailure(old(db.applications), u, year).value) &&
          ProfilesFailed(old(db.applications), old(db.educations), db.applications, db.educations, u, year, a)) &&
        (resp.status != 201 ==> IsErrorMessage(msg)))
    ensures resp.status == 201 <==>
      SetPasswordValidation(body) == Valid &&
      Registers(old(db.sessions), old(db.users), old(db.applications), sessionId, now, year)
    ensures resp.status == 201 ==>
      "password" in body && sessionId in old(db.sessions) &&
      db.sessions == old(db.sessions) - {sessionId} &&
      var s := old(db.sessions)[sessionId];
      resp == Response(201, map["detail" := JStr("User Registered Successfully"),
                                "user" := UserJson(u, RegisteredUser(s, body["password"], now))]) &&
      ProfilesWritten(old(db.applications), old(db.educations), db.applications, db.educations, u, year, a, e)
  {
    msg, u, a, e := "", 0, 0, 0;
    var v := SetPasswordValidation(body);
    if v != Valid {
      return Response(400, ValidationBody(v)), msg, u, a, e;
    }
    SetPasswordAccepts(body);
    resp, msg, u, a, e := AnswerRegistration(db, sessionId, body["password"], now, year);
  }

  /**
   * `LoginAPIView.post`: 404 for an unknown email, 401 for a wrong
   * password, otherwise the two tokens (given) and the user. Whether the
   * account is active is not looked at.
   */
  method LoginView(db: Database, body: Body, refresh: string, access: string) returns (resp: Response)
    requires db.Valid()
    ensures Errors(LoginRules, body) != map[] ==> resp == Response(400, ErrorBody(Errors(LoginRules, body)))
    ensures Errors(LoginRules, body) == map[] ==>
      "email" in body && "password" in body &&
      (resp.status == 404 <==> !EmailTaken(db.users, body["email"])) &&
      (resp.status == 401 <==>
        exists u :: u in db.users && db.users[u].email == body["email"] && !CheckPassword(db.users[u], body["password"])) &&
      (resp.status == 200 <==>
        exists u :: u in db.users && db.users[u].email == body["email"] && CheckPassword(db.users[u], body["password"]))
    ensures resp.status == 401 ==> resp == Detail(401, "Incorrect Password")
    ensures resp.status == 200 ==>
      exists u :: u in db.users && db.users[u].email == body["email"] && CheckPassword(db.users[u], body["password"]) &&
        resp.body == map["refresh" := JStr(refresh), "access" := JStr(access), "user" := UserJson(u, db.users[u])]
  {
    var errs := Errors(LoginRules, body);
    if errs != map[] {
      return Response(400, ErrorBody(errs));
    }
    NoErrorsIff(LoginRules, body);
    assert CheckField(LoginRules[0], body).None? && CheckField(LoginRules[1], body).None?;
    var email, password := body["email"], body["password"];
    if !EmailTaken(db.users, email) {
      return Response(404, map[]);
    }
    var u :| u in db.users && db.users[u].email == email;
    assert forall w :: w in db.users && db.users[w].email == email ==> w == u;
    if CheckPassword(db.users[u], password) {
      return Response(200, map["refresh" := JStr(refresh), "access" := JStr(access),
                               "user" := UserJson(u, db.users[u])]);
    }
    resp := Detail(401, "Incorrect Password");
  }

  /** `UserApplicationAPIView.post`: always a conflict; nothing is read or written. */
  function PostUserApplication(): (r: Response)
    ensures r.status == 409
    ensures r == Detail(409, "User Application Already Exists. Use PUT to update.")
  {
    Detail(409, "User Application Already Exists. Use PUT to update.")
  }

  /** `UserEducationDetailsAPIView.post`: always a conflict; nothing is read or written. */
  function PostEducationDetails(): (r: Response)
    ensures r.status == 409
    ensures r == Detail(409, "User Education Details Already Exists. Use PUT to update details")
  {
    Detail(409, "User Education Details Already Exists. Use PUT to update details")
  }
}
