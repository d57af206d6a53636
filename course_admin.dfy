/** `CourseApplicationAdmin.get_course_type`: a label for the first chosen course. */
module CourseAdmin {
  import opened Base
  import opened EntranceModels
  import opened CourseSelection

  const NoCourse: string := "No course selected"

  /** The order the label looks at the course fields in; degree and program are not among them. */
  const LabelOrder: seq<Field> := [MajorField, MinorField, MdcField, VacField, AecField, AocField]

  /** Every chosen course of the six is a row of its table. */
  predicate CoursesKnown(cat: Catalog, a: CourseApplication)
  {
    (a.major.Some? ==> a.major.value in cat.majors) &&
    (a.minor.Some? ==> a.minor.value in cat.minors) &&
    (a.mdc.Some? ==> a.mdc.value in cat.mdcs) &&
    (a.vac.Some? ==> a.vac.value in cat.vacs) &&
    (a.aec.Some? ==> a.aec.value in cat.aecs) &&
    (a.aoc.Some? ==> a.aoc.value in cat.aocs)
  }

  function KindLabel(f: Field): string
  {
    match f
    case MajorField => "Major: "
    case MinorField => "Minor: "
    case MdcField => "MDC: "
    case VacField => "VAC: "
    case AecField => "AEC: "
    case AocField => "AOC: "
    case _ => ""
  }

  /** The `name` of the chosen course of a labelled field. */
  function CourseName(cat: Catalog, a: CourseApplication, f: Field): string
    requires CoursesKnown(cat, a) && f in LabelOrder && Get(a, f).Some?
  {
    match f
    case MajorField => cat.majors[a.major.value].name
    case MinorField => cat.minors[a.minor.value].name
    case MdcField => cat.mdcs[a.mdc.value].name
    case VacField => cat.vacs[a.vac.value].name
    case AecField => cat.aecs[a.aec.value].name
    case AocField => cat.aocs[a.aoc.value].name
  }

  /** The position in `order` of the first field holding a selection, `|order|` when none does. */
  function FirstSelected(a: CourseApplication, order: seq<Field>): (i: nat)
    ensures i <= |order|
    ensures i < |order| ==> Get(a, order[i]).Some?
    ensures forall j :: 0 <= j < i ==> Get(a, order[j]).None?
  {
    if order == [] || Get(a, order[0]).Some? then 0
    else
      var i := FirstSelected(a, order[1..]);
      assert forall j :: 1 <= j <= i ==> order[j] == order[1..][j - 1];
      1 + i
  }

  /** Over the label order, the first selected field is the first set one of the if/elif chain. */
  lemma {:induction false} FirstInLabelOrder(a: CourseApplication)
    ensures FirstSelected(a, LabelOrder) ==
      if a.major.Some? then 0
      else if a.minor.Some? then 1
      else if a.mdc.Some? then 2
      else if a.vac.Some? then 3
      else if a.aec.Some? then 4
      else if a.aoc.Some? then 5
      else 6
  {
    var o := LabelOrder;
    assert o[6..] == [];
    assert o[5..][1..] == o[6..];
    assert FirstSelected(a, o[5..]) == if a.aoc.Some? then 0 else 1;
    assert o[4..][1..] == o[5..];
    assert FirstSelected(a, o[4..]) == if a.aec.Some? then 0 else 1 + FirstSelected(a, o[5..]);
    assert o[3..][1..] == o[4..];
    assert FirstSelected(a, o[3..]) == if a.vac.Some? then 0 else 1 + FirstSelected(a, o[4..]);
    assert o[2..][1..] == o[3..];
    assert FirstSelected(a, o[2..]) == if a.mdc.Some? then 0 else 1 + FirstSelected(a, o[3..]);
    assert o[1..][1..] == o[2..];
    assert FirstSelected(a, o[1..]) == if a.minor.Some? then 0 else 1 + FirstSelected(a, o[2..]);
    assert FirstSelected(a, o) == if a.major.Some? then 0 else 1 + FirstSelected(a, o[1..]);
  }

  /** `get_course_type`, the if/elif chain over the six course fields. */
  function CourseType(cat: Catalog, a: CourseApplication): string
    requires CoursesKnown(cat, a)
  {
    if a.major.Some? then "Major: " + cat.majors[a.major.value].name
    else if a.minor.Some? then "Minor: " + cat.minors[a.minor.value].name
    else if a.mdc.Some? then "MDC: " + cat.mdcs[a.mdc.value].name
    else if a.vac.Some? then "VAC: " + cat.vacs[a.vac.value].name
    else if a.aec.Some? then "AEC: " + cat.aecs[a.aec.value].name
    else if a.aoc.Some? then "AOC: " + cat.aocs[a.aoc.value].name
    else NoCourse
  }

  /** The label names the first selected field of the label order, or says that there is none. */
  lemma {:induction false} CourseTypeLabelsFirstSelected(cat: Catalog, a: CourseApplication)
    requires CoursesKnown(cat, a)
    ensures var i := FirstSelected(a, LabelOrder);
      (i == |LabelOrder| ==> CourseType(cat, a) == NoCourse) &&
      (i < |LabelOrder| ==> CourseType(cat, a) == KindLabel(LabelOrder[i]) + CourseName(cat, a, LabelOrder[i]))
  {
    FirstInLabelOrder(a);
  }

  /** "No course selected" exactly when none of the six course fields is set. */
  lemma {:induction false} NoCourseIff(cat: Catalog, a: CourseApplication)
    requires CoursesKnown(cat, a)
    ensures CourseType(cat, a) == NoCourse <==>
      a.major.None? && a.minor.None? && a.mdc.None? && a.vac.None? && a.aec.None? && a.aoc.None?
  {
    // every course label differs from NoCourse in its third character
    var text := CourseType(cat, a);
    if a.major.Some? {
      assert text[2] == 'j';
    } else if a.minor.Some? {
      assert text[2] == 'n';
    } else if a.mdc.Some? || a.vac.Some? || a.aec.Some? || a.aoc.Some? {
      assert text[2] == 'C';
    }
  }

  /** The chosen degree and program never change the label. */
  lemma DegreeAndProgramIgnored(cat: Catalog, a: CourseApplication, degree: Option<Id>, program: Option<Id>)
    requires CoursesKnown(cat, a)
    ensures CoursesKnown(cat, a.(degree := degree, program := program))
    ensures CourseType(cat, a.(degree := degree, program := program)) == CourseType(cat, a)
  {
  }
}
