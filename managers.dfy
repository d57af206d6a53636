/**
 * `CustomUserManager`: the argument checks of `create_user` and
 * `create_superuser`. The user model has no `phone_number` field, so the
 * construction step always rejects its keyword arguments.
 */
module Managers {
  import opened Base
  import opened AuthModels

  /** A Python value passed as an extra keyword argument. */
  datatype PyValue = PyBool(b: bool) | PyInt(i: int) | PyStr(s: string) | PyNone

  /**
   * The keyword names `CustomUser(...)` recognises: its concrete fields
   * (`username` is removed) and the two many-to-many fields `groups` and
   * `user_permissions`, which Django rejects with a different error.
   */
  const UserFieldNames: set<string> :=
    {"id", "password", "last_login", "is_superuser", "first_name", "last_name", "email", "is_staff",
     "is_active", "date_joined", "groups", "user_permissions", "phone", "is_admitted",
     "admission_date", "created_at", "updated_at"}

  /** What the manager raises. */
  datatype ManagerError = ValueError(message: string) | TypeError(unexpected: set<string>)

  /** Python truthiness of an optional string argument. */
  predicate Truthy(o: Option<string>)
  {
    o.Some? && o.value != ""
  }

  /**
   * `create_user`. The two presence checks come first; then
   * `self.model(email=..., phone_number=..., **extra_fields)` rejects every
   * keyword that is not a field of the user model, `phone_number` always
   * among them.
   */
  method CreateUser(email: Option<string>, phoneNumber: Option<string>, password: Option<string>,
                    extraFields: map<string, PyValue>) returns (err: ManagerError)
    requires "email" !in extraFields && "phone_number" !in extraFields && "password" !in extraFields
    ensures !Truthy(email) ==> err == ValueError("The Email field must be set")
    ensures Truthy(email) && !Truthy(phoneNumber) ==> err == ValueError("The Phone Number field must be set")
    ensures Truthy(email) && Truthy(phoneNumber) ==>
      err == TypeError((extraFields.Keys + {"email", "phone_number"}) - UserFieldNames)
    ensures err.TypeError? ==> "phone_number" in err.unexpected && "email" !in err.unexpected
  {
    if !Truthy(email) {
      return ValueError("The Email field must be set");
    }
    if !Truthy(phoneNumber) {
      return ValueError("The Phone Number field must be set");
    }
    var keywords := extraFields.Keys + {"email", "phone_number"};
    err := TypeError(keywords - UserFieldNames);
  }

  /**
   * The password step `create_user` would take after construction: the
   * password is set only when a non-empty one is given.
   */
  function SetPasswordIfGiven(u: User, password: Option<string>): (v: User)
    ensures Truthy(password) ==> v.password == Hashed(password.value)
    ensures !Truthy(password) ==> v == u
    ensures v.(password := u.password) == u
  {
    if Truthy(password) then u.(password := Hashed(password.value)) else u
  }

  /** The four flags `create_superuser` defaults to True. */
  const SuperuserDefaults: seq<string> := ["is_staff", "is_superuser", "is_active", "is_verified"]

  /** The four `extra_fields.setdefault(flag, True)` calls, in order. */
  method SetDefaults(extraFields: map<string, PyValue>) returns (fields: map<string, PyValue>)
    ensures forall k :: k in extraFields ==> k in fields && fields[k] == extraFields[k]
    ensures forall k :: k in fields <==> k in extraFields || k in SuperuserDefaults
    ensures forall k :: k in fields && k !in extraFields ==> fields[k] == PyBool(true)
  {
    fields := extraFields;
    var i := 0;
    while i < |SuperuserDefaults|
      invariant 0 <= i <= |SuperuserDefaults|
      invariant forall k :: k in extraFields ==> k in fields && fields[k] == extraFields[k]
      invariant forall k :: k in fields <==> k in extraFields || k in SuperuserDefaults[..i]
      invariant forall k :: k in fields && k !in extraFields ==> fields[k] == PyBool(true)
    {
      var key := SuperuserDefaults[i];
      if key !in fields {
        fields := fields[key := PyBool(true)];
      }
      i := i + 1;
    }
    assert SuperuserDefaults[..i] == SuperuserDefaults;
  }

  /**
   * `create_superuser`: `setdefault` the four flags, require `is_staff` and
   * `is_superuser` to be the value True, then hand over to `create_user`.
   * Returns the keyword arguments as they were passed on, and the error.
   */
  method CreateSuperuser(email: Option<string>, phoneNumber: Option<string>, password: Option<string>,
                         extraFields: map<string, PyValue>) returns (fields: map<string, PyValue>, err: ManagerError)
    requires "email" !in extraFields && "phone_number" !in extraFields && "password" !in extraFields
    ensures forall k :: k in extraFields ==> k in fields && fields[k] == extraFields[k]
    ensures forall k :: k in fields <==> k in extraFields || k in SuperuserDefaults
    ensures forall k :: k in fields && k !in extraFields ==> fields[k] == PyBool(true)
    ensures fields["is_staff"] != PyBool(true) ==> err == ValueError("Superuser must have is_staff=True.")
    ensures fields["is_staff"] == PyBool(true) && fields["is_superuser"] != PyBool(true) ==>
      err == ValueError("Superuser must have is_superuser=True.")
    ensures fields["is_staff"] == PyBool(true) && fields["is_superuser"] == PyBool(true) ==>
      (!Truthy(email) ==> err == ValueError("The Email field must be set")) &&
      (Truthy(email) && !Truthy(phoneNumber) ==> err == ValueError("The Phone Number field must be set")) &&
      (Truthy(email) && Truthy(phoneNumber) ==> err.TypeError? && {"phone_number", "is_verified"} <= err.unexpected)
  {
    fields := SetDefaults(extraFields);
    assert "is_staff" in fields && "is_superuser" in fields && "is_verified" in fields by {
      assert SuperuserDefaults[0] == "is_staff" && SuperuserDefaults[1] == "is_superuser";
      assert SuperuserDefaults[3] == "is_verified";
    }
    if fields["is_staff"] != PyBool(true) {
      return fields, ValueError("Superuser must have is_staff=True.");
    }
    if fields["is_superuser"] != PyBool(true) {
      return fields, ValueError("Superuser must have is_superuser=True.");
    }
    assert "email" !in fields && "phone_number" !in fields && "password" !in fields by {
      assert "email" !in SuperuserDefaults && "phone_number" !in SuperuserDefaults && "password" !in SuperuserDefaults;
    }
    assert "is_verified" !in UserFieldNames;
    err := CreateUser(email, phoneNumber, password, fields);
  }
}
