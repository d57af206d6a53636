# PWC admissions backend: a Dafny model

This project models the rule-bearing core of the PWC admissions backend, a
Django and Django REST Framework application. It covers:

- the three-step registration: start a registration session, verify one
  OTP per channel (email and phone), then set the password to create the
  account and its two profile rows;
- the OTP records and their checks;
- the generation of `PWC<year><sequence>` application ids;
- the course-selection update of the entrance-exam module;
- the request serializers, the user manager, and the admin label of a
  course application.

The database is the class `Store.Database`. It has one map per table, keyed by
primary key, and one shared id counter. `Valid()` states that every key was
handed out already and that the unique constraints of the models hold: user
email and phone, the one-to-one user of `UserApplication` with its unique
`application_id` and `aadhaar_number`, and both one-to-one links of
`EducationDetailsModel`. A write that would break a constraint returns the
error and leaves its table as it was. The foreign keys of the two profile
tables are the separate predicate `Store.Linked`: every application and
education row names a stored user, and every education row a stored
application. Only the registration writes those tables, and its methods
require and keep `Linked` themselves.

Several things are not computed by the model but passed in:

- the clock: integer seconds `now`, plus the current year;
- the six random draws of an OTP code;
- the JWT strings of a login.

A password hash is modelled as recording which raw password was set.

Every service and view is modelled as the code is written. The model keeps
these behaviours of the code:

- `verify_otp` takes `.first()` of the filtered query. With no record that
  gives `None`, and the next attribute access raises `AttributeError`. The
  `except DoesNotExist` does not catch it, so "No OTP Record Found" is never
  returned, and the verify endpoint answers with a server error.
- On a mismatch `verify_otp` increments `num_of_attempts` on the Python object
  but never saves it. Stored counts stay 0, so "OTP is not valid" cannot be
  answered for records that were created by the services.
- The `verify_otp` filter asks for NULL in the column of the other channel.
  A record created with any type other than "email" or "phone" stores the
  identifier in `phone`, so the filter never finds it.
- `generate_user_application_id` slices the last id from index 8, although
  `PWC` plus a four-digit year is only 7 characters long. It also adds no
  increment. For a last id of the form `PWC<year>0nnnn` it therefore yields
  that same id.
- `UserApplication.objects.create(user=user)` leaves the unique
  `aadhaar_number` as the empty string. Once one such row exists, every later
  `complete_registration` fails on that constraint. This happens after the
  user row has been written, and there is no transaction, so the user row
  stays.
- `CourseApplicationAPIView.put` clears dependent fields and then overwrites
  all eight fields from the request. The clearing therefore never shows.
  `get_or_create` raises `MultipleObjectsReturned` when a user has more than
  one row.
- `CustomUserManager.create_user` passes `phone_number=` to a model that has
  no such field, so model construction always raises `TypeError`.
  `create_superuser` also passes `is_verified`, which is not a field either.
- Login never looks at `is_active`.

## Model

| member | source | states |
|---|---|---|
| OtpModels.NewOtpRecord | core_main/models.py:32-41 | a new record has 0 attempts, is unverified, and is stamped with the creation time |
| OtpModels.ExpiryBoundary | core_main/models.py:59-67 | a record is not expired at its expiry instant, is expired one second later, and stays expired |
| OtpModels.IsExpired | core_main/models.py:59-67 | defined as the clock being strictly past `expires_at`; `ExpiryBoundary` states its boundary |
| OtpModels.IsInvalid | core_main/models.py:69-77 | defined as more attempts than `MAX_ALLOWED_ATTEMPTS`; `AttemptLimitBoundary` states its boundary |
| OtpModels.AttemptLimitBoundary | core_main/models.py:9-9 | exactly 3 attempts is still valid; 4 is invalid |
| OtpModels.Str | core_main/models.py:43-57 | the text is "OTP for " + identifier + " : " + code; the identifier is the email for type "email" and the phone for any other type |
| OtpServices.GenerateCode | core_main/services.py:15-17 | the code has exactly 6 characters, each a decimal digit equal to its draw |
| OtpServices.ChannelRecord | core_main/services.py:20-35 | the identifier goes to `email` (phone null) for type "email", otherwise to `phone` (email null); the record expires 5 minutes after `now` |
| OtpServices.GenerateOtpRecord | core_main/services.py:20-38 | exactly one new row is added under a fresh key; older rows are kept |
| OtpServices.NewestCandidate | core_main/services.py:57-60 | None exactly when no row passes the filter (type, identifier and null in the other column, unverified); otherwise a row with the latest `created_at` among those that pass |
| OtpServices.Candidate | core_main/services.py:57-60 | defined as the filter of `verify_otp`: same type, the identifier in the column of that type, NULL in the other, not verified; `OtherTypeNeverFound` shows its consequence for other types |
| OtpServices.Check | core_main/services.py:62-70 | the checks run in the order expired, then over the attempt limit, then code mismatch; Match exactly when none of them applies |
| OtpServices.Message | core_main/services.py:62-76 | one message per verdict, and "OTP Verified Successfully!" exactly for a match |
| OtpServices.VerifyOtp | core_main/services.py:53-79 | no candidate raises AttributeError and changes nothing; otherwise it answers the newest candidate's verdict and message; a match removes that record; every other outcome leaves the store unchanged |
| OtpServices.GenerateKeepsAsCreated | core_main/services.py:20-38 | creating a record keeps every stored record at 0 attempts and unverified |
| OtpServices.RemoveKeepsAsCreated | core_main/services.py:72-76 | removing the matched record keeps that invariant |
| OtpServices.AttemptLimitUnreachable | core_main/services.py:65-70 | while the invariant holds, no record is ever judged "not valid" |
| OtpServices.FreshRecordIsChecked | core_main/services.py:27-38 | a record newer than every stored row is the one the next verification checks |
| OtpServices.OtherTypeNeverFound | core_main/services.py:31-35 | a record of a type other than email or phone never passes the verify filter |
| AuthModels.NewUser | core_users/authentication_models.py:35-43 | a new user is not admitted, has no admission date, is active, is neither staff nor superuser, and has no password |
| AuthModels.CheckPassword | core_users/api_views.py:166-166 | defined as the stored password being the one that was set; `SetPasswordThenCheck` states that it accepts exactly that one |
| AuthModels.SetPasswordThenCheck | core_users/services.py:97-98 | after `set_password(p)`, `check_password` accepts exactly `p` |
| AuthModels.InsertKeepsUnique | core_users/authentication_models.py:26-27 | adding a user with a free email and a free phone keeps both unique |
| AuthModels.ReplaceKeepsUnique | core_users/services.py:97-98 | rewriting a user with the same email and phone keeps both unique |
| AuthModels.NewSession | core_users/authentication_models.py:71-81 | a new session has neither channel verified and keeps the given contact data and expiry |
| AuthModels.SessionExpiryBoundary | core_users/authentication_models.py:86-94 | a session is not expired at its expiry instant, is expired one second later, and stays expired |
| AuthModels.SessionExpired | core_users/authentication_models.py:86-94 | defined as the clock being strictly past the session's `expires_at`; `SessionExpiryBoundary` states its boundary |
| Profiles.NewUserApplication | core_users/models.py:32-39 | a freshly created application has no id and an empty Aadhaar number |
| Profiles.ApplicationConflict | core_users/models.py:32-39 | no conflict exactly when the row differs from every other row in user, Aadhaar number and (when set) application id |
| Profiles.WriteKeepsUniqueApplications | core_users/models.py:32-39 | writing a row without conflict keeps the application table's constraints |
| Profiles.NewEducationDetails | core_users/models.py:109-139 | a new education row links the user and the application, holds no marks, and is still appearing |
| Profiles.EducationConflict | core_users/models.py:109-110 | no conflict exactly when no row has the same user or the same application |
| Profiles.InsertKeepsUniqueEducation | core_users/models.py:109-110 | inserting without conflict keeps both one-to-one links |
| ApplicationIds.LexLeTransitive | core_users/models.py:72-72 | the string order of `order_by('-application_id')` is transitive (with LexLeReflexive, LexLeAntisymmetric and LexLeTotal it is a total order) |
| ApplicationIds.LastWithPrefixIsUnique | core_users/models.py:72-72 | the last id with the prefix is determined by the stored ids |
| ApplicationIds.LatestWithPrefix | core_users/models.py:72-72 | the result is None exactly when no stored id has the year prefix; otherwise it is the greatest such id |
| ApplicationIds.LastOf | core_users/models.py:72-72 | the reference value of the query: None when no id has the prefix, otherwise the greatest id with it |
| ApplicationIds.PyInt | core_users/models.py:76-78 | Python's `int()` on a string: optional sign, digits with single underscores between them, surrounding whitespace; None where Python raises `ValueError`; `PyIntOfDigits` states its value on plain digits |
| ApplicationIds.PyIntOfDigits | core_users/models.py:76-76 | `int()` of a non-empty digit string is its decimal value, leading zeros included |
| ApplicationIds.SequenceNumber | core_users/models.py:74-80 | defined as `int()` of the slice after index 8 of the last id, and 1 when there is no last id or `int()` raises; `UnparsableSliceFallsBack` and `NextIdRepeatsLast` state its consequences |
| ApplicationIds.IdFromLast | core_users/models.py:71-81 | the id starts with "PWC" + year; with no last id it is "PWC<year>00001" |
| ApplicationIds.UnparsableSliceFallsBack | core_users/models.py:75-78 | a slice that `int()` rejects gives the same id as having no last id |
| ApplicationIds.FourDigitYear | core_users/models.py:71-72 | for a four-digit year the prefix is 7 characters long, so index 8 skips the first digit of the sequence |
| ApplicationIds.NextIdRepeatsLast | core_users/models.py:74-81 | with last id "PWC<year>" + `f'{n:05d}'` and n < 10000, the next id equals the last |
| ApplicationIds.GeneratedIdAlreadyTaken | core_users/models.py:72-81 | so the generated id is already stored |
| Store.IdsInUse | core_users/models.py:72-72 | defined as the non-null application ids of the table; used by `NextApplicationId`, `IdsInUseInsert` and `ProfilesAdmitted` |
| Store.NextApplicationId | core_users/models.py:68-86 | the id the overridden `save` assigns over a table; it starts with "PWC" + year |
| Store.IdsInUseInsert | core_users/models.py:33-33 | a new row with an id adds exactly that id to the ids in use |
| Store.Database.CreateSession | core_users/services.py:32-40 | the session is added under a fresh key and nothing else changes |
| Store.Database.DeleteSession | core_users/services.py:112-112 | exactly that session is removed and the invariant still holds |
| Store.Database.CreateOtp | core_main/services.py:27-35 | the record is added under a fresh key and nothing else changes |
| Store.Database.CreateCourseApplication | feature_entrance_exam/views.py:18-18 | the row is added under a fresh key and nothing else changes |
| Store.Database.CreateUser | core_users/authentication_models.py:26-27 | a taken email is rejected first, then a taken phone; otherwise the user is added under a fresh key |
| Store.Database.UpdateUser | core_users/services.py:97-98 | the user row is replaced and the constraints still hold |
| Store.Database.GenerateApplicationId | core_users/models.py:68-81 | the id is computed from the greatest stored id of the year |
| Store.Database.CreateApplication | core_users/models.py:83-86 | the row is stored with a freshly generated id unless a unique constraint fails, in which case the table is unchanged |
| Store.Database.SaveApplication | core_users/models.py:83-86 | every save regenerates the id of a stored row; the row is updated unless a constraint against another row fails |
| Store.Database.CreateEducation | core_users/services.py:105-109 | the education row is inserted unless a one-to-one link is taken |
| AuthServices.StartRegistration | core_users/services.py:15-42 | "Email already registered" comes before "Phone already registered"; on success exactly one new session is added, expiring 24 hours later, and existing sessions are not consulted |
| AuthServices.MarkVerified | core_users/services.py:57-61 | "email" sets only the email flag; any other type sets only the phone flag |
| AuthServices.UpdateVerificationStatus | core_users/services.py:45-68 | a missing session answers the caught error and changes nothing; otherwise only that session's flag changes |
| AuthServices.BlankAadhaarConflicts | core_users/models.py:39-39 | a new row with the blank Aadhaar number conflicts with a stored blank one |
| AuthServices.CreatedRow | core_users/models.py:83-86 | the row `objects.create(user=u)` writes: a new application carrying the id its `save` generates |
| AuthServices.SaveSeesCreated | core_users/services.py:102-103 | the re-save generates its id over a table whose ids now include the first one |
| AuthServices.ConflictIgnoringSelf | core_users/models.py:32-39 | re-saving the created row is checked against exactly the rows stored before it |
| AuthServices.FreshUserConflict | core_users/models.py:32-39 | for a user no row names, a new row with id `id` conflicts exactly when a blank Aadhaar number is stored or `id` is in use |
| AuthServices.FreshUserAdmitted | core_users/services.py:102-103 | for such a user both writes go through exactly when the profiles are admitted: no blank Aadhaar number, and neither generated id in use |
| AuthServices.FirstOfYearAdmitted | core_users/models.py:71-81 | with no id of the year stored and no blank Aadhaar number, both generated ids are "PWC<year>00001" and the profiles are admitted |
| AuthServices.StoreApplication | core_users/services.py:102-103 | a conflict on create leaves the table unchanged; a conflict on the re-save leaves exactly the created row; otherwise exactly the saved row is added under a fresh key; with a blank Aadhaar number stored it always fails |
| AuthServices.FreshApplicationEducation | core_users/models.py:109-110 | the education row of a new application conflicts exactly when the user already has one, on `user_id` |
| AuthServices.CreateProfiles | core_users/services.py:100-109 | each failing write and the tables it leaves; success exactly when neither application write conflicts and the user has no education row, and then the two tables are the old ones plus the saved application row and an education row linked to the user and to it |
| AuthServices.ProfilesFailed | core_users/services.py:102-103 | defined as the profile tables after the application row failed: no education row, and only the created row added when the second save failed; used by `CreateAccount` and the registration methods above it |
| AuthServices.BlankAadhaarLeavesProfiles | core_users/services.py:102-102 | while a blank Aadhaar number is stored, the failure is the conflict on create, and both profile tables stay as they were |
| AuthServices.RegisteredUser | core_users/services.py:91-98 | the user row keeps the session's email and phone and accepts the password |
| AuthServices.AddAccountUser | core_users/services.py:91-98 | a taken email, then a taken phone, is refused with nothing written; otherwise exactly one new user row, named by no profile row |
| AuthServices.CreateAccount | core_users/services.py:90-109 | the email and phone refusals change nothing; with free contacts the new user row is written in every case; success exactly when the contacts are free and the profiles are admitted, and then both profile tables gain exactly their new rows; a failure with free contacts is the first application conflict and leaves the profile tables as `ProfilesFailed` says |
| AuthServices.FinishRegistration | core_users/services.py:90-113 | the account writes after the session checks; the email and phone errors change nothing; success exactly when the contacts are free and the profiles are admitted, and then the session is deleted; a failure with free contacts answers the message of the first application conflict, keeps the session and leaves the profile tables as `ProfilesFailed` says |
| AuthServices.CompleteRegistration | core_users/services.py:71-119 | the checks run in the order missing, expired, pending, and each of them changes nothing; a ready session fails with the email, then the phone error message, and those change nothing either; with free contacts a failure writes the user row, answers the message of the first application conflict and leaves the profile tables as `ProfilesFailed` says; success exactly when the session is ready, both contacts are free and the profiles are admitted; then the user, the two profile rows and the deletion of the session are exactly the new state; a failure keeps the session |
| AuthServices.ErrorMessage | core_users/services.py:118-119 | the message starts with "Error encountered: " |
| EntranceModels.Major.Save | feature_entrance_exam/models.py:123-126 | `total_seats` becomes actual plus buffer seats, a null counting as 0; the seat counts are unchanged and nothing else may change |
| EntranceModels.ProgramsOfDegree | feature_entrance_exam/models.py:26-26 | defined as the programs whose degree is the given one; used by `ProgramsListedIff` |
| EntranceModels.MajorsOfProgram | feature_entrance_exam/models.py:104-106 | defined as the majors of the given program; used by `MajorsListedIff` |
| EntranceModels.NewCourseApplication | feature_entrance_exam/models.py:133-147 | a new course application has nothing selected, fee 0 and is unpaid |
| CourseSelection.Position | feature_entrance_exam/views.py:79-88 | every option key sits in `course_field_mapping` next to its own field |
| CourseSelection.AllFilledMeansEveryField | feature_entrance_exam/views.py:47-48 | the save gate holds exactly when all eight fields are set |
| CourseSelection.Invalid | feature_entrance_exam/serializers.py:81-92 | defined as the fields whose given key names no row of their own table, so nothing relates one field to another; used by `Put` |
| CourseSelection.BuildOptions | feature_entrance_exam/views.py:60-76 | the options before pruning are one tier, chosen by major, then program, then degree, then none, plus the three universal lists |
| CourseSelection.PruneSelected | feature_entrance_exam/views.py:79-93 | a key is removed exactly when its field is selected; every other key keeps its list |
| CourseSelection.RowsOf | feature_entrance_exam/views.py:18-18 | defined as the keys of the user's rows; used by `GetOrCreate` and `Put` |
| CourseSelection.GetOrCreate | feature_entrance_exam/views.py:18-18 | raises exactly when the user has several rows; otherwise it returns the only row, or a new default row when there is none |
| CourseSelection.Overwrite | feature_entrance_exam/views.py:26-44 | every selection field equals the submitted value (None when absent), so the clearing never shows; user and fee are untouched |
| CourseSelection.AvailableOptions | feature_entrance_exam/views.py:60-93 | the answer equals the reference map `Available` |
| CourseSelection.Put | feature_entrance_exam/views.py:16-102 | raises or rejects before writing a selection; otherwise the selection is the request, the row is written only if all eight fields are set, fee and payment are unchanged, and the options are `Available` |
| CourseSelection.CompleteSelectionOffersNothing | feature_entrance_exam/views.py:46-93 | a complete selection leaves no options |
| CourseSelection.DegreesListedIff | feature_entrance_exam/views.py:68-71 | degrees are listed exactly when no degree, program or major is chosen |
| CourseSelection.ProgramsListedIff | feature_entrance_exam/views.py:68-69 | programs are listed exactly when a degree but no program or major is chosen, and they are that degree's programs |
| CourseSelection.MajorsListedIff | feature_entrance_exam/views.py:66-67 | majors are listed exactly when a program but no major is chosen, and they are that program's majors |
| CourseSelection.MinorsAndMdcsListedIff | feature_entrance_exam/views.py:62-64 | the major's minors and MDCs are listed once a major is chosen, each until it is picked |
| CourseSelection.UniversalListsIff | feature_entrance_exam/views.py:74-76 | VAC, AEC and AOC lists are offered whatever the tier, each until it is picked |
| CourseSelection.OneTierAtMost | feature_entrance_exam/views.py:62-71 | at most one tier is listed, and never beside the major's lists |
| Serializers.CheckField | core_users/serializers.py:10-36 | a field passes exactly when it is present, not blank and within its length bounds |
| Serializers.Errors | core_users/serializers.py:6-36 | every error belongs to a rule that fails; every failing rule has an error |
| Serializers.NoErrorsIff | core_users/serializers.py:6-36 | no errors exactly when every field passes |
| Serializers.RegisterAccepts | core_users/serializers.py:6-12 | registration passes exactly when all four fields are given and not blank, phone has at most 10 characters and each name at most 30 |
| Serializers.VerifyOtpAccepts | core_users/serializers.py:17-22 | both OTPs given, not blank, at most 6 characters each |
| Serializers.ResendOtpAccepts | core_users/serializers.py:25-29 | email given and phone given with at most 10 characters |
| Serializers.SetPasswordValidation | core_users/serializers.py:31-41 | the field checks first, then the password comparison; `SetPasswordAccepts` states when it passes |
| Serializers.SetPasswordAccepts | core_users/serializers.py:31-41 | valid exactly when both passwords have at least 8 characters and are equal; the mismatch error appears exactly when both pass their own checks but differ |
| Serializers.ToRepresentation | core_users/serializers.py:77-93 | when appearing, exactly the six 12th-grade subject marks and the 12th total are removed and every other key keeps its value; otherwise the base representation is returned |
| Managers.CreateUser | core_users/managers.py:9-19 | an empty email raises first, then an empty phone number; otherwise construction raises TypeError naming the keywords that are not model fields, `phone_number` always among them; keywords naming reverse relations are admitted under Left out |
| Managers.SetPasswordIfGiven | core_users/managers.py:20-21 | the password is set only when a non-empty one is given; nothing else changes |
| Managers.SetDefaults | core_users/managers.py:30-33 | the four flags are added as True where missing; values the caller gave are kept |
| Managers.CreateSuperuser | core_users/managers.py:26-40 | is_staff must be True, then is_superuser must be True; after that the `create_user` checks apply, and its TypeError also names `is_verified` |
| CourseAdmin.FirstSelected | feature_entrance_exam/admin.py:135-146 | the position of the first field of the order that holds a selection, the length when none does |
| CourseAdmin.FirstInLabelOrder | feature_entrance_exam/admin.py:135-146 | over the label order that position follows the if/elif chain |
| CourseAdmin.CourseType | feature_entrance_exam/admin.py:133-148 | defined as the if/elif chain over the six course fields; `CourseTypeLabelsFirstSelected` and `NoCourseIff` state what it answers |
| CourseAdmin.CourseTypeLabelsFirstSelected | feature_entrance_exam/admin.py:133-148 | the label is "<Kind>: <name>" for the first selected field in the order major, minor, mdc, vac, aec, aoc, and "No course selected" when there is none |
| CourseAdmin.NoCourseIff | feature_entrance_exam/admin.py:147-148 | "No course selected" exactly when all six fields are null |
| CourseAdmin.DegreeAndProgramIgnored | feature_entrance_exam/admin.py:133-148 | the chosen degree and program never change the label |
| ApiViews.ErrorBody | core_users/api_views.py:30-31 | the 400 body has one entry per rejected field, each with DRF's message |
| ApiViews.StartRegistrationView | core_users/api_views.py:28-56 | a validation failure answers 400 with the field errors; a service failure answers 400 with its message and creates no OTP record; 201 exactly when the data is valid and both contacts are free, with one new session and two new OTP records |
| ApiViews.Recorded | core_users/api_views.py:83-86 | each flag is set when its channel succeeded and is otherwise kept |
| ApiViews.RemoveOtherType | core_users/api_views.py:79-80 | removing the matched email record does not change which phone record is checked |
| ApiViews.AfterVerify | core_main/services.py:72-76 | after a verification only the matched record is gone; every other record is kept as it was |
| ApiViews.VerifyChannels | core_users/api_views.py:79-80 | both checks run, email first; each result is exactly `verify_otp`'s answer for the newest candidate of its channel in the table before the call; no email candidate means no phone check; the table afterwards lacks exactly the matched records |
| ApiViews.VerifyOtpView | core_users/api_views.py:63-92 | 404 for a missing session; each channel's result is exactly `verify_otp`'s answer and the OTP table lacks exactly the matched records; 500 when either check raises; otherwise a flag is set exactly for the channels that succeeded, 200 exactly when both did, else 400 with both messages |
| ApiViews.ResendOtpView | core_users/api_views.py:98-116 | two new records for the given contacts, whatever the sessions |
| ApiViews.AnswerRegistration | core_users/api_views.py:131-146 | each failure of `complete_registration` answers 400 with its own message (the three session messages, then the email and phone errors, then the first application conflict) and keeps the session; the profile tables stay as they were except after a conflict on the re-save, which leaves the created application row; 201 exactly when the registration succeeds, with the new user's data, and then the user row, the two profile rows and the deleted session are the new state |
| ApiViews.SetPasswordView | core_users/api_views.py:123-146 | validation errors answer 400 and change nothing; each failure of `complete_registration` answers 400 with its own message, keeps the session and leaves the profile tables as `AnswerRegistration` says; 201 exactly when the data is valid and the registration succeeds, with the new user's data, the new user row and its two profile rows |
| ApiViews.LoginView | core_users/api_views.py:153-179 | 404 exactly for an unknown email, 401 exactly for a wrong password, 200 exactly for the right one, with the tokens and the data of the user whose email was given |
| ApiViews.PostUserApplication | core_users/api_views.py:205-207 | always 409 with its detail, and the store is not touched |
| ApiViews.PostEducationDetails | core_users/api_views.py:240-245 | always 409 with its detail, and the store is not touched |

## Left out

- Randomness, hashing and tokens come in as parameters: the six digit draws,
  the JWT strings, and a stored password modelled as the raw password it was
  set from.
- The clock is integer seconds and the year is a parameter. Time zones and
  calendars are not modelled.
- Environment variables are not read. `MAX_ALLOWED_ATTEMPTS`, `OTP_EXPIRY_MIN`
  and `REGISTRATION_EXPIRY_HOURS` take their defaults. When
  `MAX_ALLOWED_ATTEMPTS` is set it is a string, and the comparison with it would
  raise; that case is not modelled.
- OTP delivery is not modelled: `send_email_otp` and `send_phone_otp` only
  print.
- DRF's field parsing is reduced to presence, blank and length checks:
  - whitespace trimming is assumed to have happened already;
  - email format is not checked;
  - the `IntegerField` parsing of `session_id` is not modelled, and a parsed
    session id is a natural number.
- `PrimaryKeyRelatedField` is reduced to "the key exists in its table".
- The texts of database errors are reduced to the column name. The 404 and 500
  bodies that the framework writes are left empty.
- One id counter serves all tables. The database gives each table its own
  sequence, but nothing in the core depends on key values.
- `order_by` ties (two rows with the same `created_at`): the model allows
  either row.
- `ApplicationIds.PyInt` strips only ASCII whitespace, not all of Python's
  Unicode whitespace. It also accepts only the ASCII digits 0-9, while
  Python's `int()` accepts every Unicode decimal digit (such as '١٢').
- The order of `order_by('-application_id')` is the column's collation in the
  database. The model takes a binary collation, which compares by code
  point; a locale-aware collation is not modelled.
- `normalize_email` is not modelled.
- The part of `create_user` after model construction (`set_password`, `save`)
  is never reached. `Managers.SetPasswordIfGiven` states what its password
  step would do.
- Managers.CreateUser: `UserFieldNames` lists the concrete fields of the user
  model and its two many-to-many fields `groups` and `user_permissions`. For
  those two keywords Django raises a different `TypeError` ("Direct
  assignment to the forward side of a many-to-many set is prohibited"); the
  model reports the unexpected-keyword `TypeError` in that case too. Property setters that Django
  would also accept as keywords are not modelled. Neither are keywords naming
  the reverse relations of the user (`application`, `education_detail`,
  `courseapplication`, the admin's `logentry`): Django resolves those names,
  so it leaves them out of the unexpected-keyword `TypeError` or fails on
  them with another error (a `ValueError` from the one-to-one descriptor),
  while the model counts them as unexpected.
- Other endpoints and services are left out: the GET and PUT profile
  endpoints, the current-user endpoint, `reset_password` (its lookup names no
  model field), URL routing, and admin registration.
- Authentication and permission classes are not modelled.
- Concurrency and transactions are not modelled. Each write commits on its
  own; the model does not claim atomicity.
- Decimal, file and image columns carry no logic and are omitted from the
  records. The fee is an integer amount.
- `EducationDetailsModel` is only a record shape.
