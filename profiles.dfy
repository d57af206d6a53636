/** The two profile rows created with every account (core_users/models.py). */
module Profiles {
  import opened Base

  /**
   * `UserApplication`. Only the columns with a constraint or a default that
   * matters are kept: the one-to-one user, the unique application id and
   * the unique `aadhaar_number`, which has no default and so is stored as
   * the empty string when the row is created without one.
   */
  datatype UserApplication = UserApplication(
    user: Id,
    applicationId: Option<string>,
    aadhaarNumber: string,
    isEws: bool,
    isDisabled: bool)

  /** `UserApplication.objects.create(user=user)` before its `save` assigns an id. */
  function NewUserApplication(user: Id): (a: UserApplication)
    ensures a.user == user && a.applicationId == None && a.aadhaarNumber == ""
    ensures !a.isEws && !a.isDisabled
  {
    UserApplication(user, None, "", false, false)
  }

  /** `EducationDetailsModel`, as a record shape; marks are percentages. */
  datatype EducationDetails = EducationDetails(
    user: Id,
    userApplication: Id,
    schoolName10th: Option<string>,
    schoolBoard10th: Option<string>,
    subjectMarks10th: seq<Option<nat>>,
    totalMarks10th: Option<nat>,
    isAppearing: bool,
    schoolName12th: Option<string>,
    schoolBoard12th: Option<string>,
    subjectStream: string,
    subjectMarks12th: seq<Option<nat>>,
    totalMarks12th: Option<nat>)

  /** The unique constraints of the application table: one row per user, distinct ids and Aadhaar numbers. */
  ghost predicate UniqueApplicationRows(apps: map<Id, UserApplication>)
  {
    forall a, b :: a in apps && b in apps && a != b ==> Distinct(apps[a], apps[b])
  }

  ghost predicate Distinct(x: UserApplication, y: UserApplication)
  {
    x.user != y.user && x.aadhaarNumber != y.aadhaarNumber &&
    (x.applicationId.Some? ==> x.applicationId != y.applicationId)
  }

  /**
   * The first unique constraint that writing `row` (as row `self`, or as a
   * new row when `self` is None) would violate.
   */
  function ApplicationConflict(apps: map<Id, UserApplication>, row: UserApplication, self: Option<Id>): (c: Option<DbError>)
    ensures c.None? <==> forall k :: k in apps && Some(k) != self ==> Distinct(row, apps[k])
  {
    if exists k :: k in apps && Some(k) != self && apps[k].user == row.user then
      Some(UniqueViolation("user_id"))
    else if row.applicationId.Some? && exists k :: k in apps && Some(k) != self && apps[k].applicationId == row.applicationId then
      Some(UniqueViolation("application_id"))
    else if exists k :: k in apps && Some(k) != self && apps[k].aadhaarNumber == row.aadhaarNumber then
      Some(UniqueViolation("aadhaar_number"))
    else None
  }

  lemma {:induction false} WriteKeepsUniqueApplications(apps: map<Id, UserApplication>, k: Id, row: UserApplication)
    requires UniqueApplicationRows(apps)
    requires ApplicationConflict(apps, row, Some(k)).None?
    ensures UniqueApplicationRows(apps[k := row])
  {
    var apps' := apps[k := row];
    forall a, b | a in apps' && b in apps' && a != b ensures Distinct(apps'[a], apps'[b]) {
      if a == k {
        assert Distinct(row, apps[b]);
      } else if b == k {
        assert Distinct(row, apps[a]);
      } else {
        assert Distinct(apps[a], apps[b]);
      }
    }
  }

  /** A freshly created education profile: all marks null, still appearing. */
  function NewEducationDetails(user: Id, application: Id): (e: EducationDetails)
    ensures e.user == user && e.userApplication == application && e.isAppearing
    ensures |e.subjectMarks10th| == 6 && |e.subjectMarks12th| == 6
    ensures forall i :: 0 <= i < 6 ==> e.subjectMarks10th[i] == None && e.subjectMarks12th[i] == None
    ensures e.totalMarks10th == None && e.totalMarks12th == None
  {
    EducationDetails(user, application, None, None, seq(6, _ => None), None, true,
                     None, None, "", seq(6, _ => None), None)
  }

  /** The one-to-one constraints of the education table: one row per user and per application. */
  ghost predicate UniqueEducationRows(edus: map<Id, EducationDetails>)
  {
    forall a, b :: a in edus && b in edus && a != b ==>
      edus[a].user != edus[b].user && edus[a].userApplication != edus[b].userApplication
  }

  /** The first one-to-one constraint that inserting `row` would violate. */
  function EducationConflict(edus: map<Id, EducationDetails>, row: EducationDetails): (c: Option<DbError>)
    ensures c.None? <==> forall k :: k in edus ==>
      edus[k].user != row.user && edus[k].userApplication != row.userApplication
  {
    if exists k :: k in edus && edus[k].user == row.user then Some(UniqueViolation("user_id"))
    else if exists k :: k in edus && edus[k].userApplication == row.userApplication then
      Some(UniqueViolation("user_application_id"))
    else None
  }

  lemma {:induction false} InsertKeepsUniqueEducation(edus: map<Id, EducationDetails>, k: Id, row: EducationDetails)
    requires UniqueEducationRows(edus) && k !in edus
    requires EducationConflict(edus, row).None?
    ensures UniqueEducationRows(edus[k := row])
  {
    var edus' := edus[k := row];
    forall a, b | a in edus' && b in edus' && a != b
      ensures edus'[a].user != edus'[b].user && edus'[a].userApplication != edus'[b].userApplication
    {
      if a == k {
        assert edus'[b] == edus[b];
      } else if b == k {
        assert edus'[a] == edus[a];
      }
    }
  }
}
