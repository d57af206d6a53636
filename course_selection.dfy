/**
 * `CourseApplicationAPIView.put`: the user's single course application is
 * fetched or created, overwritten with the eight submitted selections,
 * saved only once all eight are filled, and answered with the options the
 * user may still pick.
 */
module CourseSelection {
  import opened Base
  import opened EntranceModels
  import opened Store

  /** The eight selection fields of a course application. */
  datatype Field = DegreeField | ProgramField | MajorField | MinorField | MdcField | VacField | AecField | AocField

  /** The keys of `available_options`. */
  datatype OptionKey = Degrees | Programs | Majors | Minors | Mdcs | Vacs | Aecs | Aocs

  /** `course_field_mapping`, in its order. */
  const CourseFieldMapping: seq<(Field, OptionKey)> :=
    [(DegreeField, Degrees), (ProgramField, Programs), (MajorField, Majors), (MinorField, Minors),
     (MdcField, Mdcs), (VacField, Vacs), (AecField, Aecs), (AocField, Aocs)]

  /** The field whose selection removes an option key. */
  function FieldOf(k: OptionKey): Field
  {
    match k
    case Degrees => DegreeField
    case Programs => ProgramField
    case Majors => MajorField
    case Minors => MinorField
    case Mdcs => MdcField
    case Vacs => VacField
    case Aecs => AecField
    case Aocs => AocField
  }

  /** Where an option key sits in `course_field_mapping`. */
  function Position(k: OptionKey): (i: nat)
    ensures i < |CourseFieldMapping| && CourseFieldMapping[i] == (FieldOf(k), k)
  {
    match k
    case Degrees => 0
    case Programs => 1
    case Majors => 2
    case Minors => 3
    case Mdcs => 4
    case Vacs => 5
    case Aecs => 6
    case Aocs => 7
  }

  /** `getattr(application, field)`. */
  function Get(a: CourseApplication, f: Field): Option<Id>
  {
    match f
    case DegreeField => a.degree
    case ProgramField => a.program
    case MajorField => a.major
    case MinorField => a.minor
    case MdcField => a.mdc
    case VacField => a.vac
    case AecField => a.aec
    case AocField => a.aoc
  }

  /** `all(getattr(application, f) is not None for f in required_fields)`. */
  predicate AllFilled(a: CourseApplication)
  {
    a.degree.Some? && a.program.Some? && a.major.Some? && a.minor.Some? &&
    a.mdc.Some? && a.vac.Some? && a.aec.Some? && a.aoc.Some?
  }

  lemma AllFilledMeansEveryField(a: CourseApplication)
    ensures AllFilled(a) <==> forall f :: Get(a, f).Some?
  {
    if !AllFilled(a) {
      assert exists f :: Get(a, f).None? by {
        if a.degree.None? { assert Get(a, DegreeField).None?; }
        else if a.program.None? { assert Get(a, ProgramField).None?; }
        else if a.major.None? { assert Get(a, MajorField).None?; }
        else if a.minor.None? { assert Get(a, MinorField).None?; }
        else if a.mdc.None? { assert Get(a, MdcField).None?; }
        else if a.vac.None? { assert Get(a, VacField).None?; }
        else if a.aec.None? { assert Get(a, AecField).None?; }
        else { assert Get(a, AocField).None?; }
      }
    }
  }

  /**
   * The submitted body: a key absent or sent as null both read as None
   * through `validated_data.get`.
   */
  type Request = map<Field, Option<Id>>

  function Given(request: Request, f: Field): Option<Id>
  {
    if f in request then request[f] else None
  }

  /** The table a field's primary key must exist in. */
  predicate InTable(cat: Catalog, f: Field, id: Id)
  {
    match f
    case DegreeField => id in cat.degrees
    case ProgramField => id in cat.programs
    case MajorField => id in cat.majors
    case MinorField => id in cat.minors
    case MdcField => id in cat.mdcs
    case VacField => id in cat.vacs
    case AecField => id in cat.aecs
    case AocField => id in cat.aocs
  }

  /**
   * The fields `CourseApplicationStateSerializer` rejects: a given key that
   * names no row of its table. Nothing relates one field to another.
   */
  function Invalid(cat: Catalog, request: Request): (bad: set<Field>)
    ensures forall f :: f in bad <==> Given(request, f).Some? && !InTable(cat, f, Given(request, f).value)
  {
    set f | f in request && request[f].Some? && !InTable(cat, f, request[f].value)
  }

  /** Every selected key names a row of its table. */
  predicate Resolves(cat: Catalog, a: CourseApplication)
  {
    forall f :: Get(a, f).Some? ==> InTable(cat, f, Get(a, f).value)
  }

  /** The chosen major, if any, is a row of the catalog (its minors and MDCs are read). */
  predicate MajorKnown(cat: Catalog, a: CourseApplication)
  {
    a.major.Some? ==> a.major.value in cat.majors
  }

  /** The one tier the options are drawn from, by priority major, program, degree. */
  function TierKeys(a: CourseApplication): set<OptionKey>
  {
    if a.major.Some? then {Minors, Mdcs}
    else if a.program.Some? then {Majors}
    else if a.degree.Some? then {Programs}
    else {Degrees}
  }

  /** The rows listed under an option key, for the tier the selection reaches. */
  function Listing(cat: Catalog, a: CourseApplication, k: OptionKey): set<Id>
    requires MajorKnown(cat, a)
  {
    match k
    case Degrees => cat.degrees.Keys
    case Programs => if a.degree.Some? then ProgramsOfDegree(cat, a.degree.value) else {}
    case Majors => if a.program.Some? then MajorsOfProgram(cat, a.program.value) else {}
    case Minors => if a.major.Some? then cat.majors[a.major.value].availableMinors else {}
    case Mdcs => if a.major.Some? then cat.majors[a.major.value].availableMdc else {}
    case Vacs => cat.vacs.Keys
    case Aecs => cat.aecs.Keys
    case Aocs => cat.aocs.Keys
  }

  /** `available_options` before pruning: one tier, then the three universal lists. */
  function Offered(cat: Catalog, a: CourseApplication): map<OptionKey, set<Id>>
    requires MajorKnown(cat, a)
  {
    map k | k in TierKeys(a) + {Vacs, Aecs, Aocs} :: Listing(cat, a, k)
  }

  /** `available_options` as answered: the offered keys whose field is still empty. */
  function Available(cat: Catalog, a: CourseApplication): map<OptionKey, set<Id>>
    requires MajorKnown(cat, a)
  {
    var offered := Offered(cat, a);
    map k | k in offered && Get(a, FieldOf(k)).None? :: offered[k]
  }

  /** Part B of the response, built one key at a time as the view does. */
  method BuildOptions(cat: Catalog, a: CourseApplication) returns (options: map<OptionKey, set<Id>>)
    requires MajorKnown(cat, a)
    ensures options == Offered(cat, a)
  {
    options := map[];
    if a.major.Some? {
      var major := cat.majors[a.major.value];
      options := options[Minors := major.availableMinors];
      options := options[Mdcs := major.availableMdc];
    } else if a.program.Some? {
      options := options[Majors := MajorsOfProgram(cat, a.program.value)];
    } else if a.degree.Some? {
      options := options[Programs := ProgramsOfDegree(cat, a.degree.value)];
    } else {
      options := options[Degrees := cat.degrees.Keys];
    }
    options := options[Vacs := cat.vacs.Keys];
    options := options[Aecs := cat.aecs.Keys];
    options := options[Aocs := cat.aocs.Keys];
  }

  /**
   * The pruning loop over `course_field_mapping`: a key goes exactly when
   * its field is selected; every other key keeps its list.
   */
  method PruneSelected(options: map<OptionKey, set<Id>>, a: CourseApplication) returns (pruned: map<OptionKey, set<Id>>)
    ensures forall k :: k in pruned <==> k in options && Get(a, FieldOf(k)).None?
    ensures forall k :: k in pruned ==> pruned[k] == options[k]
  {
    pruned := options;
    var i := 0;
    while i < |CourseFieldMapping|
      invariant 0 <= i <= |CourseFieldMapping|
      invariant forall k :: k in pruned <==> k in options && (Position(k) >= i || Get(a, FieldOf(k)).None?)
      invariant forall k :: k in pruned ==> pruned[k] == options[k]
    {
      var (field, key) := CourseFieldMapping[i];
      assert Position(key) == i;
      if Get(a, field).Some? && key in pruned {
        pruned := pruned - {key};
      }
      i := i + 1;
    }
  }

  /** The rows of the course-application table that belong to `user`. */
  function RowsOf(apps: map<Id, CourseApplication>, user: Id): (rows: set<Id>)
    ensures forall k :: k in rows <==> k in apps && apps[k].user == user
  {
    set k | k in apps && apps[k].user == user
  }

  /** `get_or_create(user=...)` settled on `k`: the user's only row, or a new one. */
  ghost predicate GotOrCreated(apps: map<Id, CourseApplication>, user: Id, k: Id)
  {
    RowsOf(apps, user) == {k} || (RowsOf(apps, user) == {} && k !in apps)
  }

  /** The table once `get_or_create` has settled on `k`. */
  function AfterGetOrCreate(apps: map<Id, CourseApplication>, user: Id, k: Id): map<Id, CourseApplication>
  {
    if k in apps then apps else apps[k := NewCourseApplication(user)]
  }

  /**
   * HTTP-level outcome of `put`: an exception out of `get_or_create`, the
   * serializer's 400 naming the rejected fields, or the 200 body.
   */
  datatype PutResponse =
    | Raised(exception: string)
    | BadRequest(invalid: set<Field>)
    | Answered(selected: CourseApplication, options: map<OptionKey, set<Id>>)

  /**
   * `get_or_create(user=...)`: the user's only row, a new default row when
   * there is none, and `MultipleObjectsReturned` (None) when there are several.
   */
  method GetOrCreate(db: Database, user: Id) returns (row: Option<Id>)
    requires db.Valid()
    modifies db`courseApplications, db`nextId
    ensures db.Valid()
    ensures row.None? <==> |RowsOf(old(db.courseApplications), user)| > 1
    ensures row.None? ==> db.courseApplications == old(db.courseApplications)
    ensures row.Some? ==>
      GotOrCreated(old(db.courseApplications), user, row.value) &&
      db.courseApplications == AfterGetOrCreate(old(db.courseApplications), user, row.value)
  {
    var rows := RowsOf(db.courseApplications, user);
    if |rows| > 1 {
      return None;
    }
    if rows == {} {
      var k := db.CreateCourseApplication(NewCourseApplication(user));
      return Some(k);
    }
    var k :| k in rows;
    assert rows == {k} by {
      assert |rows - {k}| == |rows| - 1 == 0;
      assert rows - {k} == {};
    }
    row := Some(k);
  }

  /**
   * Section 3 of `put`: the dependent-field clearing, then every selection
   * field set from the request. The clearing never shows in the result.
   */
  method Overwrite(application: CourseApplication, request: Request) returns (a: CourseApplication)
    ensures forall f :: Get(a, f) == Given(request, f)
    ensures a.user == application.user && a.feeAmount == application.feeAmount
    ensures a.isFeePaid == application.isFeePaid
  {
    a := application;
    if a.program != Given(request, ProgramField) {
      a := a.(major := None, minor := None, mdc := None);
    }
    if a.major != Given(request, MajorField) {
      a := a.(minor := None, mdc := None);
    }
    a := a.(degree := Given(request, DegreeField));
    a := a.(program := Given(request, ProgramField));
    a := a.(major := Given(request, MajorField));
    a := a.(minor := Given(request, MinorField));
    a := a.(mdc := Given(request, MdcField));
    a := a.(vac := Given(request, VacField));
    a := a.(aec := Given(request, AecField));
    a := a.(aoc := Given(request, AocField));
  }

  /** Part B of the response: built, then pruned. */
  method AvailableOptions(cat: Catalog, a: CourseApplication) returns (options: map<OptionKey, set<Id>>)
    requires MajorKnown(cat, a)
    ensures options == Available(cat, a)
  {
    options := BuildOptions(cat, a);
    options := PruneSelected(options, a);
    assert options == Available(cat, a);
  }

  /**
   * `put`: settle on the user's row, validate the request, overwrite the
   * eight selections, save only a complete selection, and answer with the
   * selection and the options still open.
   */
  method Put(db: Database, cat: Catalog, user: Id, request: Request) returns (resp: PutResponse, row: Option<Id>)
    requires db.Valid()
    modifies db`courseApplications, db`nextId
    ensures db.Valid()
    ensures resp.Raised? <==> |RowsOf(old(db.courseApplications), user)| > 1
    ensures resp.Raised? ==>
      resp.exception == "MultipleObjectsReturned" && db.courseApplications == old(db.courseApplications)
    ensures !resp.Raised? ==> row.Some? && GotOrCreated(old(db.courseApplications), user, row.value)
    ensures resp.BadRequest? <==> !resp.Raised? && Invalid(cat, request) != {}
    ensures resp.BadRequest? ==>
      resp.invalid == Invalid(cat, request) &&
      db.courseApplications == AfterGetOrCreate(old(db.courseApplications), user, row.value)
    ensures resp.Answered? ==>
      var base := AfterGetOrCreate(old(db.courseApplications), user, row.value);
      var a := resp.selected;
      (forall f :: Get(a, f) == Given(request, f)) &&
      a.user == user && a.feeAmount == base[row.value].feeAmount && a.isFeePaid == base[row.value].isFeePaid &&
      Resolves(cat, a) && MajorKnown(cat, a) && resp.options == Available(cat, a) &&
      db.courseApplications == if AllFilled(a) then base[row.value := a] else base
  {
    row := GetOrCreate(db, user);
    if row.None? {
      return Raised("MultipleObjectsReturned"), row;
    }
    var k := row.value;
    var invalid := Invalid(cat, request);
    if invalid != {} {
      return BadRequest(invalid), row;
    }
    var application := Overwrite(db.courseApplications[k], request);
    if AllFilled(application) {
      db.courseApplications := db.courseApplications[k := application];
    }
    assert MajorKnown(cat, application) by {
      assert application.major.Some? ==> InTable(cat, MajorField, Get(application, MajorField).value);
    }
    var options := AvailableOptions(cat, application);
    resp := Answered(application, options);
  }

  // ------------------------------------------------------------- properties

  /** A complete selection leaves no option to pick. */
  lemma {:induction false} CompleteSelectionOffersNothing(cat: Catalog, a: CourseApplication)
    requires MajorKnown(cat, a)
    requires AllFilled(a)
    ensures Available(cat, a) == map[]
  {
    AllFilledMeansEveryField(a);
    assert forall k :: k !in Available(cat, a) by {
      forall k ensures k !in Available(cat, a) {
        assert Get(a, FieldOf(k)).Some?;
      }
    }
  }

  /** Degrees are listed exactly when no degree, program or major is chosen. */
  lemma DegreesListedIff(cat: Catalog, a: CourseApplication)
    requires MajorKnown(cat, a)
    ensures Degrees in Available(cat, a) <==> a.degree.None? && a.program.None? && a.major.None?
  {
  }

  /** Programs are listed exactly when a degree but no program and no major is chosen. */
  lemma ProgramsListedIff(cat: Catalog, a: CourseApplication)
    requires MajorKnown(cat, a)
    ensures Programs in Available(cat, a) <==> a.degree.Some? && a.program.None? && a.major.None?
    ensures Programs in Available(cat, a) ==> Available(cat, a)[Programs] == ProgramsOfDegree(cat, a.degree.value)
  {
  }

  /** Majors are listed exactly when a program but no major is chosen. */
  lemma MajorsListedIff(cat: Catalog, a: CourseApplication)
    requires MajorKnown(cat, a)
    ensures Majors in Available(cat, a) <==> a.program.Some? && a.major.None?
    ensures Majors in Available(cat, a) ==> Available(cat, a)[Majors] == MajorsOfProgram(cat, a.program.value)
  {
  }

  /** The major's minors and MDCs are listed once a major is chosen, each until it is picked. */
  lemma MinorsAndMdcsListedIff(cat: Catalog, a: CourseApplication)
    requires MajorKnown(cat, a)
    ensures Minors in Available(cat, a) <==> a.major.Some? && a.minor.None?
    ensures Mdcs in Available(cat, a) <==> a.major.Some? && a.mdc.None?
    ensures Minors in Available(cat, a) ==> Available(cat, a)[Minors] == cat.majors[a.major.value].availableMinors
    ensures Mdcs in Available(cat, a) ==> Available(cat, a)[Mdcs] == cat.majors[a.major.value].availableMdc
  {
  }

  /** The three universal lists are offered whatever the tier, each until it is picked. */
  lemma UniversalListsIff(cat: Catalog, a: CourseApplication)
    requires MajorKnown(cat, a)
    ensures Vacs in Available(cat, a) <==> a.vac.None?
    ensures Aecs in Available(cat, a) <==> a.aec.None?
    ensures Aocs in Available(cat, a) <==> a.aoc.None?
    ensures Vacs in Available(cat, a) ==> Available(cat, a)[Vacs] == cat.vacs.Keys
    ensures Aecs in Available(cat, a) ==> Available(cat, a)[Aecs] == cat.aecs.Keys
    ensures Aocs in Available(cat, a) ==> Available(cat, a)[Aocs] == cat.aocs.Keys
  {
  }

  /** At most one tier is ever listed, and never beside the major's lists. */
  lemma {:induction false} OneTierAtMost(cat: Catalog, a: CourseApplication)
    requires MajorKnown(cat, a)
    ensures Degrees in Available(cat, a) ==> Programs !in Available(cat, a) && Majors !in Available(cat, a)
    ensures Programs in Available(cat, a) ==> Majors !in Available(cat, a)
    ensures (Degrees in Available(cat, a) || Programs in Available(cat, a) || Majors in Available(cat, a)) ==>
      Minors !in Available(cat, a) && Mdcs !in Available(cat, a)
  {
    DegreesListedIff(cat, a);
    ProgramsListedIff(cat, a);
    MajorsListedIff(cat, a);
    MinorsAndMdcsListedIff(cat, a);
  }
}
