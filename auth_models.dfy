/** The account and the pending registration of core_users. */
module AuthModels {
  import opened Base

  /**
   * The stored password. Hashing is one-way and salted; the model keeps
   * which raw password was hashed, which is all `check_password` depends on.
   */
  datatype Password = NoPassword | Hashed(raw: string)

  /** `CustomUser`: email and phone identify the account; `username` is disabled. */
  datatype User = User(
    email: string,
    phone: string,
    firstName: string,
    lastName: string,
    password: Password,
    isAdmitted: bool,
    admissionDate: Option<int>,
    isActive: bool,
    isStaff: bool,
    isSuperuser: bool,
    createdAt: int)

  /** A user row as `CustomUser.objects.create` builds it from the four given fields. */
  function NewUser(email: string, phone: string, firstName: string, lastName: string, now: int): (u: User)
    ensures u.email == email && u.phone == phone && u.firstName == firstName && u.lastName == lastName
    ensures !u.isAdmitted && u.admissionDate == None && u.isActive
    ensures !u.isStaff && !u.isSuperuser && u.password == NoPassword && u.createdAt == now
  {
    User(email, phone, firstName, lastName, NoPassword, false, None, true, false, false, now)
  }

  /** `check_password`: true only for the password that was set. */
  predicate CheckPassword(u: User, raw: string)
  {
    u.password == Hashed(raw)
  }

  /** `set_password` followed by a check accepts exactly that password. */
  lemma SetPasswordThenCheck(u: User, raw: string, other: string)
    ensures CheckPassword(u.(password := Hashed(raw)), other) <==> other == raw
    ensures !CheckPassword(u.(password := NoPassword), other)
  {
  }

  /** The unique constraints on `email` and on `phone` across all users. */
  ghost predicate UniqueContacts(users: map<Id, User>)
  {
    forall a, b :: a in users && b in users && a != b ==>
      users[a].email != users[b].email && users[a].phone != users[b].phone
  }

  predicate EmailTaken(users: map<Id, User>, email: string)
  {
    exists id :: id in users && users[id].email == email
  }

  predicate PhoneTaken(users: map<Id, User>, phone: string)
  {
    exists id :: id in users && users[id].phone == phone
  }

  /** Adding a user whose email and phone are both free keeps the constraints. */
  lemma {:induction false} InsertKeepsUnique(users: map<Id, User>, id: Id, u: User)
    requires UniqueContacts(users) && id !in users
    requires !EmailTaken(users, u.email) && !PhoneTaken(users, u.phone)
    ensures UniqueContacts(users[id := u])
  {
    var users' := users[id := u];
    forall a, b | a in users' && b in users' && a != b
      ensures users'[a].email != users'[b].email && users'[a].phone != users'[b].phone
    {
      if a == id {
        assert users'[b] == users[b];
      } else if b == id {
        assert users'[a] == users[a];
      }
    }
  }

  /** Rewriting a user with the same email and phone keeps the constraints. */
  lemma {:induction false} ReplaceKeepsUnique(users: map<Id, User>, id: Id, u: User)
    requires UniqueContacts(users) && id in users
    requires u.email == users[id].email && u.phone == users[id].phone
    ensures UniqueContacts(users[id := u]) && users[id := u].Keys == users.Keys
  {
    var users' := users[id := u];
    forall a, b | a in users' && b in users' && a != b
      ensures users'[a].email != users'[b].email && users'[a].phone != users'[b].phone
    {
      assert users'[a].email == users[a].email && users'[a].phone == users[a].phone;
      assert users'[b].email == users[b].email && users'[b].phone == users[b].phone;
    }
  }

  /** `RegistrationSession`: a registration waiting for both OTPs and a password. */
  datatype RegistrationSession = RegistrationSession(
    email: string,
    phone: string,
    firstName: string,
    lastName: string,
    isEmailVerified: bool,
    isPhoneVerified: bool,
    expiresAt: int)

  /** A new session starts with neither channel verified. */
  function NewSession(email: string, phone: string, firstName: string, lastName: string,
                      expiresAt: int): (s: RegistrationSession)
    ensures !s.isEmailVerified && !s.isPhoneVerified && s.expiresAt == expiresAt
    ensures s.email == email && s.phone == phone && s.firstName == firstName && s.lastName == lastName
  {
    RegistrationSession(email, phone, firstName, lastName, false, false, expiresAt)
  }

  /** `is_expired`: strictly past the expiry instant. */
  predicate SessionExpired(s: RegistrationSession, now: int)
  {
    now > s.expiresAt
  }

  /** The expiry instant itself is not expired; one second later is, and it stays expired. */
  lemma SessionExpiryBoundary(s: RegistrationSession, now: int, later: int)
    requires now <= later
    ensures !SessionExpired(s, s.expiresAt) && SessionExpired(s, s.expiresAt + 1)
    ensures SessionExpired(s, now) ==> SessionExpired(s, later)
  {
  }
}
