/**
 * The database as the services see it: one map per table, keyed by primary
 * key, with the unique constraints the models declare. A write that would
 * break one of them raises instead of changing the table.
 */
module Store {
  import opened Base
  import opened OtpModels
  import opened AuthModels
  import opened Profiles
  import opened EntranceModels
  import opened ApplicationIds

  ghost predicate Below(keys: set<Id>, bound: Id)
  {
    forall k :: k in keys ==> k < bound
  }

  /** The application ids currently stored (null ids are not values). */
  function IdsInUse(apps: map<Id, UserApplication>): (ids: set<string>)
    ensures forall k :: k in apps && apps[k].applicationId.Some? ==> apps[k].applicationId.value in ids
    ensures forall s :: s in ids ==> exists k :: k in apps && apps[k].applicationId == Some(s)
  {
    set k | k in apps && apps[k].applicationId.Some? :: apps[k].applicationId.value
  }

  /** The id the overridden `save` assigns to a row written over the stored applications. */
  ghost function NextApplicationId(apps: map<Id, UserApplication>, year: nat): (id: string)
    ensures StartsWith(id, Prefix(year))
  {
    IdFromLast(year, LastOf(IdsInUse(apps), Prefix(year)))
  }

  /** A new row with an id adds exactly that id to the ones in use. */
  lemma IdsInUseInsert(apps: map<Id, UserApplication>, k: Id, row: UserApplication)
    requires k !in apps && row.applicationId.Some?
    ensures IdsInUse(apps[k := row]) == IdsInUse(apps) + {row.applicationId.value}
  {
    var apps' := apps[k := row];
    assert apps'[k].applicationId.Some?;
    forall s | s in IdsInUse(apps') ensures s in IdsInUse(apps) + {row.applicationId.value} {
      var j :| j in apps' && apps'[j].applicationId == Some(s);
      if j != k {
        assert apps[j].applicationId == Some(s);
      }
    }
    forall s | s in IdsInUse(apps) + {row.applicationId.value} ensures s in IdsInUse(apps') {
      if s != row.applicationId.value {
        var j :| j in apps && apps[j].applicationId == Some(s);
        assert j != k && apps'[j] == apps[j];
      }
    }
  }

  /**
   * The foreign keys of the profile tables: every application and every
   * education row names a stored user, and every education row a stored
   * application. Only the registration writes these tables, and it keeps
   * this invariant itself.
   */
  ghost predicate Linked(users: map<Id, User>, apps: map<Id, UserApplication>, edus: map<Id, EducationDetails>)
  {
    (forall k :: k in apps ==> apps[k].user in users) &&
    (forall k :: k in edus ==> edus[k].user in users && edus[k].userApplication in apps)
  }

  lemma LinkedAfterUserWrite(users: map<Id, User>, apps: map<Id, UserApplication>,
                             edus: map<Id, EducationDetails>, k: Id, u: User)
    requires Linked(users, apps, edus)
    ensures Linked(users[k := u], apps, edus)
  {
  }

  lemma LinkedAfterApplicationWrite(users: map<Id, User>, apps: map<Id, UserApplication>,
                                    edus: map<Id, EducationDetails>, k: Id, row: UserApplication)
    requires Linked(users, apps, edus) && row.user in users
    ensures Linked(users, apps[k := row], edus)
  {
  }

  lemma LinkedAfterEducationWrite(users: map<Id, User>, apps: map<Id, UserApplication>,
                                  edus: map<Id, EducationDetails>, k: Id, row: EducationDetails)
    requires Linked(users, apps, edus) && row.user in users && row.userApplication in apps
    ensures Linked(users, apps, edus[k := row])
  {
  }

  lemma UpdateKeepsBelow(apps: map<Id, UserApplication>, k: Id, row: UserApplication, bound: Id)
    requires Below(apps.Keys, bound) && k in apps
    ensures Below(apps[k := row].Keys, bound)
  {
  }

  class Database {
    var users: map<Id, User>
    var sessions: map<Id, RegistrationSession>
    var otps: map<Id, OtpRecord>
    var applications: map<Id, UserApplication>
    var educations: map<Id, EducationDetails>
    var courseApplications: map<Id, CourseApplication>
    /** The next primary key to hand out, shared by all tables. */
    var nextId: Id

    /** Every key was handed out already, and every unique constraint holds. */
    ghost predicate Valid()
      reads this
    {
      Below(users.Keys, nextId) && Below(sessions.Keys, nextId) && Below(otps.Keys, nextId) &&
      Below(applications.Keys, nextId) && Below(educations.Keys, nextId) &&
      Below(courseApplications.Keys, nextId) &&
      UniqueContacts(users) && UniqueApplicationRows(applications) && UniqueEducationRows(educations)
    }

    constructor ()
      ensures Valid()
      ensures users == map[] && sessions == map[] && otps == map[]
      ensures applications == map[] && educations == map[] && courseApplications == map[]
    {
      users := map[];
      sessions := map[];
      otps := map[];
      applications := map[];
      educations := map[];
      courseApplications := map[];
      nextId := 0;
    }

    /** A primary key no table uses yet. */
    method FreshId() returns (id: Id)
      requires Valid()
      modifies this`nextId
      ensures Valid() && id == old(nextId) && nextId == id + 1
      ensures id !in users && id !in sessions && id !in otps
      ensures id !in applications && id !in educations && id !in courseApplications
    {
      id := nextId;
      nextId := nextId + 1;
    }

    /** `CustomUser.objects.create`: rejected when the email or the phone is taken. */
    method CreateUser(u: User) returns (r: Result<Id>)
      requires Valid()
      modifies this`users, this`nextId
      ensures Valid()
      ensures EmailTaken(old(users), u.email) ==> r == Err(UniqueViolation("email"))
      ensures !EmailTaken(old(users), u.email) && PhoneTaken(old(users), u.phone) ==>
        r == Err(UniqueViolation("phone"))
      ensures r.Ok? <==> !EmailTaken(old(users), u.email) && !PhoneTaken(old(users), u.phone)
      ensures r.Ok? ==> r.value !in old(users) && users == old(users)[r.value := u]
      ensures r.Err? ==> users == old(users)
    {
      if EmailTaken(users, u.email) {
        return Err(UniqueViolation("email"));
      }
      if PhoneTaken(users, u.phone) {
        return Err(UniqueViolation("phone"));
      }
      var id := FreshId();
      InsertKeepsUnique(users, id, u);
      users := users[id := u];
      r := Ok(id);
    }

    /** Writing back an updated user whose email and phone are unchanged. */
    method UpdateUser(id: Id, u: User)
      requires Valid() && id in users
      requires u.email == users[id].email && u.phone == users[id].phone
      modifies this`users
      ensures Valid() && users == old(users)[id := u]
    {
      ReplaceKeepsUnique(users, id, u);
      users := users[id := u];
    }

    method CreateSession(s: RegistrationSession) returns (id: Id)
      requires Valid()
      modifies this`sessions, this`nextId
      ensures Valid() && id !in old(sessions) && sessions == old(sessions)[id := s]
    {
      id := FreshId();
      sessions := sessions[id := s];
    }

    /** `session.delete()`: the row goes, every other session stays. */
    method DeleteSession(id: Id)
      requires Valid()
      modifies this`sessions
      ensures Valid() && sessions == old(sessions) - {id}
    {
      sessions := sessions - {id};
    }

    method CreateOtp(rec: OtpRecord) returns (id: Id)
      requires Valid()
      modifies this`otps, this`nextId
      ensures Valid() && id !in old(otps) && otps == old(otps)[id := rec]
    {
      id := FreshId();
      otps := otps[id := rec];
    }

    method CreateCourseApplication(a: CourseApplication) returns (id: Id)
      requires Valid()
      modifies this`courseApplications, this`nextId
      ensures Valid() && id !in old(courseApplications)
      ensures courseApplications == old(courseApplications)[id := a]
    {
      id := FreshId();
      courseApplications := courseApplications[id := a];
    }

    /**
     * `generate_user_application_id` over the stored ids: the greatest id
     * with this year's prefix, sliced, parsed and formatted.
     */
    method GenerateApplicationId(year: nat) returns (id: string, last: Option<string>)
      ensures IsLastWithPrefix(IdsInUse(applications), Prefix(year), last)
      ensures id == IdFromLast(year, last)
      ensures StartsWith(id, Prefix(year))
    {
      last := LatestWithPrefix(IdsInUse(applications), Prefix(year));
      id := IdFromLast(year, last);
    }

    /**
     * `UserApplication.objects.create`: the overridden `save` assigns a
     * generated id, then the row is inserted unless a constraint fails.
     */
    method CreateApplication(row: UserApplication, year: nat) returns (r: Result<Id>, last: Option<string>)
      requires Valid()
      modifies this`applications, this`nextId
      ensures Valid()
      ensures IsLastWithPrefix(IdsInUse(old(applications)), Prefix(year), last)
      ensures var stored := row.(applicationId := Some(IdFromLast(year, last)));
        match ApplicationConflict(old(applications), stored, None)
        case Some(e) => r == Err(e) && applications == old(applications)
        case None => r.Ok? && r.value !in old(applications) && applications == old(applications)[r.value := stored]
    {
      var id;
      id, last := GenerateApplicationId(year);
      var stored := row.(applicationId := Some(id));
      var conflict := ApplicationConflict(applications, stored, None);
      if conflict.Some? {
        return Err(conflict.value), last;
      }
      var k := FreshId();
      assert ApplicationConflict(applications, stored, Some(k)).None?;
      WriteKeepsUniqueApplications(applications, k, stored);
      applications := applications[k := stored];
      r := Ok(k);
    }

    /** `application.save()` on a stored row: the id is generated afresh and the row updated. */
    method SaveApplication(k: Id, year: nat) returns (r: Option<DbError>, last: Option<string>)
      requires Valid() && k in applications
      modifies this`applications
      ensures Valid()
      ensures IsLastWithPrefix(IdsInUse(old(applications)), Prefix(year), last)
      ensures var stored := old(applications)[k].(applicationId := Some(IdFromLast(year, last)));
        r == ApplicationConflict(old(applications), stored, Some(k)) &&
        applications == if r.None? then old(applications)[k := stored] else old(applications)
    {
      var id;
      id, last := GenerateApplicationId(year);
      var stored := applications[k].(applicationId := Some(id));
      r := ApplicationConflict(applications, stored, Some(k));
      if r.None? {
        WriteKeepsUniqueApplications(applications, k, stored);
        UpdateKeepsBelow(applications, k, stored, nextId);
        applications := applications[k := stored];
      }
    }

    /** `EducationDetailsModel.objects.create`: one row per user and per application. */
    method CreateEducation(row: EducationDetails) returns (r: Result<Id>)
      requires Valid()
      modifies this`educations, this`nextId
      ensures Valid()
      ensures match EducationConflict(old(educations), row)
        case Some(e) => r == Err(e) && educations == old(educations)
        case None => r.Ok? && r.value !in old(educations) && educations == old(educations)[r.value := row]
    {
      var conflict := EducationConflict(educations, row);
      if conflict.Some? {
        return Err(conflict.value);
      }
      var k := FreshId();
      InsertKeepsUniqueEducation(educations, k, row);
      educations := educations[k := row];
      r := Ok(k);
    }
  }
}
