/**
 * `AuthenticationServices`: starting a registration, recording a verified
 * channel on it, and completing it into an account with its two profile
 * rows. There is no transaction: each write commits on its own.
 */
module AuthServices {
  import opened Base
  import opened AuthModels
  import opened Profiles
  import opened ApplicationIds
  import opened Store

  /** `registration_expiry_hours`, the default when the environment does not set it. */
  const RegistrationExpiryHours: nat := 24

  /** The same lifetime in seconds, the unit of the model's clock. */
  const RegistrationLifetime: int := RegistrationExpiryHours * 3600

  /** `f"Error encountered: {str(e)}"`; a database error is shown by its column. */
  function ErrorMessage(e: DbError): (msg: string)
    ensures IsErrorMessage(msg)
  {
    "Error encountered: " + e.column
  }

  predicate IsErrorMessage(msg: string)
  {
    |msg| >= 19 && msg[..19] == "Error encountered: "
  }

  /**
   * `start_registration`: refuse a taken email, then a taken phone;
   * otherwise always add a new session, whatever sessions exist already.
   */
  method StartRegistration(db: Database, email: string, phone: string, firstName: string,
                           lastName: string, now: int)
    returns (ok: bool, msg: string, session: Option<Id>)
    requires db.Valid()
    modifies db`sessions, db`nextId
    ensures db.Valid()
    ensures EmailTaken(db.users, email) ==>
      !ok && msg == "Email already registered" && session == None && db.sessions == old(db.sessions)
    ensures !EmailTaken(db.users, email) && PhoneTaken(db.users, phone) ==>
      !ok && msg == "Phone already registered" && session == None && db.sessions == old(db.sessions)
    ensures ok <==> !EmailTaken(db.users, email) && !PhoneTaken(db.users, phone)
    ensures ok ==>
      msg == "Registration Started" && session.Some? && session.value !in old(db.sessions) &&
      db.sessions == old(db.sessions)[session.value := NewSession(email, phone, firstName, lastName, now + RegistrationLifetime)]
  {
    if EmailTaken(db.users, email) {
      return false, "Email already registered", None;
    }
    if PhoneTaken(db.users, phone) {
      return false, "Phone already registered", None;
    }
    var id := db.CreateSession(NewSession(email, phone, firstName, lastName, now + RegistrationLifetime));
    ok, msg, session := true, "Registration Started", Some(id);
  }

  /** The session with one channel marked verified: "email" marks email, any other type phone. */
  function MarkVerified(s: RegistrationSession, verificationType: string): (t: RegistrationSession)
    ensures verificationType == "email" ==> t.isEmailVerified && t.isPhoneVerified == s.isPhoneVerified
    ensures verificationType != "email" ==> t.isPhoneVerified && t.isEmailVerified == s.isEmailVerified
    ensures t.email == s.email && t.phone == s.phone && t.firstName == s.firstName
    ensures t.lastName == s.lastName && t.expiresAt == s.expiresAt
  {
    if verificationType == "email" then s.(isEmailVerified := true) else s.(isPhoneVerified := true)
  }

  /** `update_verification_status`; a missing session is the caught `DoesNotExist`. */
  method UpdateVerificationStatus(db: Database, sessionId: Id, verificationType: string)
    returns (ok: bool, msg: string)
    requires db.Valid()
    modifies db`sessions
    ensures db.Valid()
    ensures ok <==> sessionId in old(db.sessions)
    ensures !ok ==>
      msg == "Error encountered: RegistrationSession matching query does not exist." &&
      db.sessions == old(db.sessions)
    ensures ok ==>
      msg == "Verification Status Updated" &&
      db.sessions == old(db.sessions)[sessionId := MarkVerified(old(db.sessions)[sessionId], verificationType)]
  {
    if sessionId !in db.sessions {
      return false, "Error encountered: RegistrationSession matching query does not exist.";
    }
    db.sessions := db.sessions[sessionId := MarkVerified(db.sessions[sessionId], verificationType)];
    ok, msg := true, "Verification Status Updated";
  }

  /** A session that `complete_registration` goes on to turn into an account. */
  predicate Ready(s: RegistrationSession, now: int)
  {
    !SessionExpired(s, now) && s.isEmailVerified && s.isPhoneVerified
  }

  /** Some stored application still has the Aadhaar number it was created with. */
  ghost predicate HasBlankAadhaar(apps: map<Id, UserApplication>)
  {
    exists k :: k in apps && apps[k].aadhaarNumber == ""
  }

  /** A new application row cannot be stored while another one has the blank Aadhaar number. */
  lemma {:induction false} BlankAadhaarConflicts(apps: map<Id, UserApplication>, row: UserApplication)
    requires HasBlankAadhaar(apps) && row.aadhaarNumber == ""
    ensures ApplicationConflict(apps, row, None).Some?
  {
    var k :| k in apps && apps[k].aadhaarNumber == "";
    assert !Distinct(row, apps[k]);
  }

  /** The row `UserApplication.objects.create(user=u)` writes: its `save` has assigned a generated id. */
  ghost function CreatedRow(apps: map<Id, UserApplication>, u: Id, year: nat): UserApplication
  {
    NewUserApplication(u).(applicationId := Some(NextApplicationId(apps, year)))
  }

  /** The id `application.save()` generates again, over the table that now holds the created row. */
  ghost function SavedApplicationId(apps: map<Id, UserApplication>, year: nat): string
  {
    IdFromLast(year, LastOf(IdsInUse(apps) + {NextApplicationId(apps, year)}, Prefix(year)))
  }

  /** The row after that second `save`. */
  ghost function SavedRow(apps: map<Id, UserApplication>, u: Id, year: nat): UserApplication
  {
    NewUserApplication(u).(applicationId := Some(SavedApplicationId(apps, year)))
  }

  /** The second `save` sees the first id among those in use. */
  lemma SaveSeesCreated(apps: map<Id, UserApplication>, a: Id, u: Id, year: nat)
    requires a !in apps
    ensures NextApplicationId(apps[a := CreatedRow(apps, u, year)], year) == SavedApplicationId(apps, year)
  {
    IdsInUseInsert(apps, a, CreatedRow(apps, u, year));
  }

  /** Updating row `a` checks the other rows, which are those stored before `a` was added. */
  lemma {:induction false} ConflictIgnoringSelf(apps: map<Id, UserApplication>, a: Id, x: UserApplication, row: UserApplication)
    requires a !in apps
    ensures ApplicationConflict(apps[a := x], row, Some(a)) == ApplicationConflict(apps, row, None)
  {
    var apps' := apps[a := x];
    assert forall k :: k in apps' && Some(k) != Some(a) <==> k in apps;
    assert forall k :: k in apps ==> apps'[k] == apps[k];
  }

  /**
   * For a user that no row names yet, the only constraints a new row with a
   * blank Aadhaar number can break are the Aadhaar number and the id.
   */
  lemma {:induction false} FreshUserConflict(apps: map<Id, UserApplication>, u: Id, id: string)
    requires forall k :: k in apps ==> apps[k].user != u
    ensures ApplicationConflict(apps, NewUserApplication(u).(applicationId := Some(id)), None).None? <==>
      !HasBlankAadhaar(apps) && id !in IdsInUse(apps)
  {
    var row := NewUserApplication(u).(applicationId := Some(id));
    if HasBlankAadhaar(apps) {
      BlankAadhaarConflicts(apps, row);
    } else if id in IdsInUse(apps) {
      var k :| k in apps && apps[k].applicationId == Some(id);
      assert !Distinct(row, apps[k]);
    } else {
      assert forall k :: k in apps ==> Distinct(row, apps[k]);
    }
  }

  /** Both generated ids are free and no blank Aadhaar number is stored: the profile rows can be written. */
  ghost predicate ProfilesAdmitted(apps: map<Id, UserApplication>, year: nat)
  {
    !HasBlankAadhaar(apps) && NextApplicationId(apps, year) !in IdsInUse(apps) &&
    SavedApplicationId(apps, year) !in IdsInUse(apps)
  }

  /** For a new user both writes of the application row go through exactly when the profiles are admitted. */
  lemma FreshUserAdmitted(apps: map<Id, UserApplication>, u: Id, year: nat)
    requires forall k :: k in apps ==> apps[k].user != u
    ensures (ApplicationConflict(apps, CreatedRow(apps, u, year), None).None? &&
             ApplicationConflict(apps, SavedRow(apps, u, year), None).None?) <==> ProfilesAdmitted(apps, year)
  {
    FreshUserConflict(apps, u, NextApplicationId(apps, year));
    FreshUserConflict(apps, u, SavedApplicationId(apps, year));
  }

  /**
   * The first account of a year, while no blank Aadhaar number is stored,
   * gets its profile rows: the id is PWC<year>00001 both times.
   */
  lemma {:induction false} FirstOfYearAdmitted(apps: map<Id, UserApplication>, year: nat)
    requires 1000 <= year <= 9999 && !HasBlankAadhaar(apps)
    requires forall k :: k in apps && apps[k].applicationId.Some? ==> !StartsWith(apps[k].applicationId.value, Prefix(year))
    ensures NextApplicationId(apps, year) == Prefix(year) + "00001"
    ensures SavedApplicationId(apps, year) == Prefix(year) + "00001"
    ensures ProfilesAdmitted(apps, year)
  {
    var ids, p := IdsInUse(apps), Prefix(year);
    LastWithPrefixIsUnique(ids, p, None, LastOf(ids, p));
    var first := NextApplicationId(apps, year);
    assert first == p + "00001";
    assert Format05d(1) == "00001" by {
      assert NatToString(1) == "1";
      assert Zeros(4) == "0000";
    }
    LexLeReflexive(first);
    assert IsLastWithPrefix(ids + {first}, p, Some(first));
    LastWithPrefixIsUnique(ids + {first}, p, Some(first), LastOf(ids + {first}, p));
    NextIdRepeatsLast(year, 1);
  }

  /**
   * The application row of a new user: created, then saved again, each
   * time with a freshly generated application id. A failing save leaves
   * the created row behind.
   */
  method StoreApplication(db: Database, u: Id, year: nat) returns (r: Result<Id>, ghost a: Id)
    requires db.Valid() && Linked(db.users, db.applications, db.educations) && u in db.users
    modifies db`applications, db`nextId
    ensures db.Valid() && Linked(db.users, db.applications, db.educations)
    ensures var apps := old(db.applications);
      match ApplicationConflict(apps, CreatedRow(apps, u, year), None)
      case Some(c) => r == Err(c) && db.applications == apps
      case None =>
        a !in apps &&
        match ApplicationConflict(apps, SavedRow(apps, u, year), None)
        case Some(c) => r == Err(c) && db.applications == apps[a := CreatedRow(apps, u, year)]
        case None => r == Ok(a) && db.applications == apps[a := SavedRow(apps, u, year)]
    ensures HasBlankAadhaar(old(db.applications)) ==> r.Err?
  {
    ghost var blank := HasBlankAadhaar(db.applications);
    ghost var apps0 := db.applications;
    var app, last := db.CreateApplication(NewUserApplication(u), year);
    LastWithPrefixIsUnique(IdsInUse(apps0), Prefix(year), last, LastOf(IdsInUse(apps0), Prefix(year)));
    if app.Err? {
      return app, 0;
    }
    LinkedAfterApplicationWrite(db.users, apps0, db.educations, app.value, CreatedRow(apps0, u, year));
    if blank {
      BlankAadhaarConflicts(apps0, CreatedRow(apps0, u, year));
      assert false;
    }
    var k := app.value;
    a := k;
    SaveSeesCreated(apps0, k, u, year);
    ConflictIgnoringSelf(apps0, k, CreatedRow(apps0, u, year), SavedRow(apps0, u, year));
    ghost var apps1 := db.applications;
    ghost var created, savedRow := CreatedRow(apps0, u, year), SavedRow(apps0, u, year);
    assert apps1 == apps0[k := created];
    var saved, last2 := db.SaveApplication(k, year);
    LastWithPrefixIsUnique(IdsInUse(apps1), Prefix(year), last2, LastOf(IdsInUse(apps1), Prefix(year)));
    assert IdFromLast(year, last2) == SavedApplicationId(apps0, year);
    assert apps1[k].(applicationId := Some(IdFromLast(year, last2))) == savedRow;
    assert saved == ApplicationConflict(apps0, savedRow, None);
    if saved.Some? {
      return Err(saved.value), a;
    }
    assert db.applications == apps1[k := savedRow];
    Rewrite(apps0, k, created, savedRow);
    LinkedAfterApplicationWrite(db.users, apps1, db.educations, k, savedRow);
    r := Ok(k);
  }

  /** Some education row already belongs to the user. */
  ghost predicate HasEducation(edus: map<Id, EducationDetails>, u: Id)
  {
    exists k :: k in edus && edus[k].user == u
  }

  /** For an application no education row names yet, only the user link can conflict. */
  lemma {:induction false} FreshApplicationEducation(edus: map<Id, EducationDetails>, apps: map<Id, UserApplication>,
                                                     u: Id, a: Id)
    requires forall k :: k in edus ==> edus[k].userApplication in apps
    requires a !in apps
    ensures EducationConflict(edus, NewEducationDetails(u, a)) ==
      if HasEducation(edus, u) then Some(UniqueViolation("user_id")) else None
  {
    assert forall k :: k in edus ==> edus[k].userApplication != a;
  }

  /**
   * The profile tables after a registration went through: the re-saved
   * application row under the new key `a` and the education row under the
   * new key `e`, linked to the user and to that application.
   */
  ghost predicate ProfilesWritten(apps0: map<Id, UserApplication>, edus0: map<Id, EducationDetails>,
                                  apps: map<Id, UserApplication>, edus: map<Id, EducationDetails>,
                                  u: Id, year: nat, a: Id, e: Id)
  {
    a !in apps0 && e !in edus0 &&
    apps == apps0[a := SavedRow(apps0, u, year)] && edus == edus0[e := NewEducationDetails(u, a)]
  }

  /**
   * The first conflict the application row of a new user meets, if any:
   * on its creation, then on its second save.
   */
  ghost function ApplicationFailure(apps: map<Id, UserApplication>, u: Id, year: nat): Option<DbError>
  {
    match ApplicationConflict(apps, CreatedRow(apps, u, year), None)
    case Some(c) => Some(c)
    case None => ApplicationConflict(apps, SavedRow(apps, u, year), None)
  }

  /**
   * The profile tables after the application row of a new user failed:
   * no education row is written, and the created row stays under the new
   * key `a` when only its second save failed.
   */
  ghost predicate ProfilesFailed(apps0: map<Id, UserApplication>, edus0: map<Id, EducationDetails>,
                                 apps: map<Id, UserApplication>, edus: map<Id, EducationDetails>,
                                 u: Id, year: nat, a: Id)
  {
    edus == edus0 &&
    if ApplicationConflict(apps0, CreatedRow(apps0, u, year), None).Some? then apps == apps0
    else a !in apps0 && apps == apps0[a := CreatedRow(apps0, u, year)]
  }

  /** While a blank Aadhaar number is stored, a failed registration leaves both profile tables as they were. */
  lemma BlankAadhaarLeavesProfiles(apps0: map<Id, UserApplication>, edus0: map<Id, EducationDetails>,
                                   apps: map<Id, UserApplication>, edus: map<Id, EducationDetails>,
                                   u: Id, year: nat, a: Id)
    requires HasBlankAadhaar(apps0) && ProfilesFailed(apps0, edus0, apps, edus, u, year, a)
    ensures ApplicationFailure(apps0, u, year) == ApplicationConflict(apps0, CreatedRow(apps0, u, year), None)
    ensures apps == apps0 && edus == edus0
  {
    BlankAadhaarConflicts(apps0, CreatedRow(apps0, u, year));
  }

  /**
   * The two profile rows of a new user: the application and the education
   * row linked to both. The first failing write ends it.
   */
  method CreateProfiles(db: Database, u: Id, year: nat) returns (err: Option<DbError>, ghost a: Id, ghost e: Id)
    requires db.Valid() && Linked(db.users, db.applications, db.educations) && u in db.users
    modifies db`applications, db`educations, db`nextId
    ensures db.Valid() && Linked(db.users, db.applications, db.educations)
    ensures var apps := old(db.applications);
      match ApplicationConflict(apps, CreatedRow(apps, u, year), None)
      case Some(c) => err == Some(c) && db.applications == apps && db.educations == old(db.educations)
      case None =>
        a !in apps &&
        match ApplicationConflict(apps, SavedRow(apps, u, year), None)
        case Some(c) =>
          err == Some(c) && db.applications == apps[a := CreatedRow(apps, u, year)] &&
          db.educations == old(db.educations)
        case None =>
          db.applications == apps[a := SavedRow(apps, u, year)] &&
          if HasEducation(old(db.educations), u) then
            err == Some(UniqueViolation("user_id")) && db.educations == old(db.educations)
          else
            err == None && e !in old(db.educations) &&
            db.educations == old(db.educations)[e := NewEducationDetails(u, a)]
    ensures err.None? <==>
      ApplicationConflict(old(db.applications), CreatedRow(old(db.applications), u, year), None).None? &&
      ApplicationConflict(old(db.applications), SavedRow(old(db.applications), u, year), None).None? &&
      !HasEducation(old(db.educations), u)
    ensures err.None? ==>
      ProfilesWritten(old(db.applications), old(db.educations), db.applications, db.educations, u, year, a, e)
    ensures HasBlankAadhaar(old(db.applications)) ==> err.Some?
  {
    ghost var apps0 := db.applications;
    var app;
    app, a := StoreApplication(db, u, year);
    e := 0;
    if app.Err? {
      return Some(app.error), a, e;
    }
    assert a == app.value && a !in apps0;
    FreshApplicationEducation(db.educations, apps0, u, app.value);
    var edu := db.CreateEducation(NewEducationDetails(u, app.value));
    if edu.Err? {
      return Some(edu.error), a, e;
    }
    e := edu.value;
    LinkedAfterEducationWrite(db.users, db.applications, old(db.educations), e, NewEducationDetails(u, app.value));
    err := None;
  }

  /** The account `complete_registration` creates from a session, with the password set. */
  function RegisteredUser(s: RegistrationSession, password: string, now: int): (u: User)
    ensures u.email == s.email && u.phone == s.phone && CheckPassword(u, password)
  {
    NewUser(s.email, s.phone, s.firstName, s.lastName, now).(password := Hashed(password))
  }

  /**
   * The first two writes of `complete_registration`: the user row, then the
   * password saved on it. A new user is named by no profile row yet.
   */
  method AddAccountUser(db: Database, s: RegistrationSession, password: string, now: int)
    returns (r: Result<Id>)
    requires db.Valid() && Linked(db.users, db.applications, db.educations)
    modifies db`users, db`nextId
    ensures db.Valid() && Linked(db.users, db.applications, db.educations)
    ensures EmailTaken(old(db.users), s.email) ==> r == Err(UniqueViolation("email")) && db.users == old(db.users)
    ensures !EmailTaken(old(db.users), s.email) && PhoneTaken(old(db.users), s.phone) ==>
      r == Err(UniqueViolation("phone")) && db.users == old(db.users)
    ensures r.Ok? <==> !EmailTaken(old(db.users), s.email) && !PhoneTaken(old(db.users), s.phone)
    ensures r.Ok? ==>
      r.value !in old(db.users) && db.users == old(db.users)[r.value := RegisteredUser(s, password, now)] &&
      (forall k :: k in db.applications ==> db.applications[k].user != r.value) &&
      !HasEducation(db.educations, r.value)
  {
    ghost var users0 := db.users;
    var row := NewUser(s.email, s.phone, s.firstName, s.lastName, now);
    var created := db.CreateUser(row);
    if created.Err? {
      return created;
    }
    var id := created.value;
    LinkedAfterUserWrite(users0, db.applications, db.educations, id, row);
    db.UpdateUser(id, db.users[id].(password := Hashed(password)));
    Rewrite(users0, id, row, RegisteredUser(s, password, now));
    LinkedAfterUserWrite(users0[id := row], db.applications, db.educations, id, RegisteredUser(s, password, now));
    r := created;
  }

  /**
   * The writes of `complete_registration` after its checks: the user, its
   * password, then the profile rows. The first failing write ends it;
   * earlier ones stay.
   */
  method CreateAccount(db: Database, s: RegistrationSession, password: string, now: int, year: nat)
    returns (r: Result<Id>, ghost u: Id, ghost a: Id, ghost e: Id)
    requires db.Valid() && Linked(db.users, db.applications, db.educations)
    modifies db`users, db`applications, db`educations, db`nextId
    ensures db.Valid() && Linked(db.users, db.applications, db.educations)
    ensures EmailTaken(old(db.users), s.email) ==>
      r == Err(UniqueViolation("email")) && db.users == old(db.users) &&
      db.applications == old(db.applications) && db.educations == old(db.educations)
    ensures !EmailTaken(old(db.users), s.email) && PhoneTaken(old(db.users), s.phone) ==>
      r == Err(UniqueViolation("phone")) && db.users == old(db.users) &&
      db.applications == old(db.applications) && db.educations == old(db.educations)
    ensures !EmailTaken(old(db.users), s.email) && !PhoneTaken(old(db.users), s.phone) ==>
      u !in old(db.users) && db.users == old(db.users)[u := RegisteredUser(s, password, now)]
    ensures r.Ok? <==>
      !EmailTaken(old(db.users), s.email) && !PhoneTaken(old(db.users), s.phone) &&
      ProfilesAdmitted(old(db.applications), year)
    ensures !EmailTaken(old(db.users), s.email) && !PhoneTaken(old(db.users), s.phone) && r.Err? ==>
      ApplicationFailure(old(db.applications), u, year) == Some(r.error) &&
      ProfilesFailed(old(db.applications), old(db.educations), db.applications, db.educations, u, year, a)
    ensures r.Ok? ==>
      r.value == u &&
      ProfilesWritten(old(db.applications), old(db.educations), db.applications, db.educations, u, year, a, e)
  {
    u, a, e := 0, 0, 0;
    ghost var apps0, edus0 := db.applications, db.educations;
    var created := AddAccountUser(db, s, password, now);
    assert db.applications == apps0 && db.educations == edus0;
    if created.Err? {
      return created, u, a, e;
    }
    var id := created.value;
    u := id;
    FreshUserAdmitted(apps0, id, year);
    var err;
    err, a, e := CreateProfiles(db, id, year);
    if err.Some? {
      return Err(err.value), u, a, e;
    }
    r := Ok(id);
  }

  /** The registration that `complete_registration` carries through to the end. */
  ghost predicate Registers(sessions: map<Id, RegistrationSession>, users: map<Id, User>,
                            apps: map<Id, UserApplication>, sessionId: Id, now: int, year: nat)
  {
    sessionId in sessions && Ready(sessions[sessionId], now) &&
    !EmailTaken(users, sessions[sessionId].email) && !PhoneTaken(users, sessions[sessionId].phone) &&
    ProfilesAdmitted(apps, year)
  }

  /**
   * The rest of `complete_registration` once the session passed its checks:
   * the account writes, then the deletion of the session when all of them
   * went through.
   */
  method FinishRegistration(db: Database, sessionId: Id, s: RegistrationSession, password: string, now: int, year: nat)
    returns (ok: bool, msg: string, user: Option<Id>, ghost u: Id, ghost a: Id, ghost e: Id)
    requires db.Valid() && Linked(db.users, db.applications, db.educations)
    requires sessionId in db.sessions && db.sessions[sessionId] == s
    modifies db`users, db`applications, db`educations, db`sessions, db`nextId
    ensures db.Valid() && Linked(db.users, db.applications, db.educations)
    ensures ok <==> user.Some?
    ensures EmailTaken(old(db.users), s.email) ==>
      msg == ErrorMessage(UniqueViolation("email")) && db.users == old(db.users) &&
      db.applications == old(db.applications) && db.educations == old(db.educations)
    ensures !EmailTaken(old(db.users), s.email) && PhoneTaken(old(db.users), s.phone) ==>
      msg == ErrorMessage(UniqueViolation("phone")) && db.users == old(db.users) &&
      db.applications == old(db.applications) && db.educations == old(db.educations)
    ensures !EmailTaken(old(db.users), s.email) && !PhoneTaken(old(db.users), s.phone) ==>
      u !in old(db.users) && db.users == old(db.users)[u := RegisteredUser(s, password, now)]
    ensures ok <==>
      !EmailTaken(old(db.users), s.email) && !PhoneTaken(old(db.users), s.phone) &&
      ProfilesAdmitted(old(db.applications), year)
    ensures !ok ==> IsErrorMessage(msg) && db.sessions == old(db.sessions)
    ensures !EmailTaken(old(db.users), s.email) && !PhoneTaken(old(db.users), s.phone) && !ok ==>
      ApplicationFailure(old(db.applications), u, year).Some? &&
      msg == ErrorMessage(ApplicationFailure(old(db.applications), u, year).value) &&
      ProfilesFailed(old(db.applications), old(db.educations), db.applications, db.educations, u, year, a)
    ensures ok ==>
      msg == "User has been registered successfully" && user == Some(u) &&
      db.sessions == old(db.sessions) - {sessionId} &&
      ProfilesWritten(old(db.applications), old(db.educations), db.applications, db.educations, u, year, a, e)
  {
    ghost var sessions0 := db.sessions;
    var r;
    r, u, a, e := CreateAccount(db, s, password, now, year);
    assert db.sessions == sessions0;
    if r.Err? {
      return false, ErrorMessage(r.error), None, u, a, e;
    }
    db.DeleteSession(sessionId);
    ok, msg, user := true, "User has been registered successfully", Some(r.value);
  }

  /**
   * `complete_registration`. The three checks on the session come first and
   * change nothing; then the account is written and, only if every write
   * went through, the session is deleted.
   */
  method CompleteRegistration(db: Database, sessionId: Id, password: string, now: int, year: nat)
    returns (ok: bool, msg: string, user: Option<Id>, ghost u: Id, ghost a: Id, ghost e: Id)
    requires db.Valid() && Linked(db.users, db.applications, db.educations)
    modifies db`users, db`applications, db`educations, db`sessions, db`nextId
    ensures db.Valid() && Linked(db.users, db.applications, db.educations)
    ensures ok <==> user.Some?
    ensures sessionId !in old(db.sessions) ==>
      !ok && msg == "No active Registration Session found" && db.users == old(db.users)
    ensures (sessionId in old(db.sessions) && SessionExpired(old(db.sessions)[sessionId], now)) ==>
      !ok && msg == "Registration Session has Expired" && db.users == old(db.users)
    ensures (sessionId in old(db.sessions) && !SessionExpired(old(db.sessions)[sessionId], now) &&
             !Ready(old(db.sessions)[sessionId], now)) ==>
      !ok && msg == "Email or Phone verification still pending" && db.users == old(db.users)
    ensures !(sessionId in old(db.sessions) && Ready(old(db.sessions)[sessionId], now)) ==>
      db.applications == old(db.applications) && db.educations == old(db.educations)
    ensures sessionId in old(db.sessions) && Ready(old(db.sessions)[sessionId], now) ==>
      var s := old(db.sessions)[sessionId];
      (EmailTaken(old(db.users), s.email) ==>
        msg == ErrorMessage(UniqueViolation("email")) && db.users == old(db.users) &&
        db.applications == old(db.applications) && db.educations == old(db.educations)) &&
      (!EmailTaken(old(db.users), s.email) && PhoneTaken(old(db.users), s.phone) ==>
        msg == ErrorMessage(UniqueViolation("phone")) && db.users == old(db.users) &&
        db.applications == old(db.applications) && db.educations == old(db.educations)) &&
      (!EmailTaken(old(db.users), s.email) && !PhoneTaken(old(db.users), s.phone) ==>
        u !in old(db.users) && db.users == old(db.users)[u := RegisteredUser(s, password, now)]) &&
      (!EmailTaken(old(db.users), s.email) && !PhoneTaken(old(db.users), s.phone) && !ok ==>
        ApplicationFailure(old(db.applications), u, year).Some? &&
        msg == ErrorMessage(ApplicationFailure(old(db.applications), u, year).value) &&
        ProfilesFailed(old(db.applications), old(db.educations), db.applications, db.educations, u, year, a)) &&
      (!ok ==> IsErrorMessage(msg))
    ensures ok <==> Registers(old(db.sessions), old(db.users), old(db.applications), sessionId, now, year)
    ensures !ok ==> db.sessions == old(db.sessions)
    ensures ok ==>
      msg == "User has been registered successfully" && user == Some(u) &&
      db.sessions == old(db.sessions) - {sessionId} &&
      ProfilesWritten(old(db.applications), old(db.educations), db.applications, db.educations, u, year, a, e)
  {
    u, a, e := 0, 0, 0;
    if sessionId !in db.sessions {
      return false, "No active Registration Session found", None, u, a, e;
    }
    var s := db.sessions[sessionId];
    if SessionExpired(s, now) {
      return false, "Registration Session has Expired", None, u, a, e;
    }
    if !(s.isEmailVerified && s.isPhoneVerified) {
      return false, "Email or Phone verification still pending", None, u, a, e;
    }
    ok, msg, user, u, a, e := FinishRegistration(db, sessionId, s, password, now, year);
  }
}
