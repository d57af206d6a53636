/**
 * The course catalog and the course application of feature_entrance_exam.
 * Catalog rows are reference data; the one entity whose own method updates
 * a field in place, `Major`, is a class.
 */
module EntranceModels {
  import opened Base

  datatype Stream = Science | Arts | Commerce

  datatype Degree = Degree(name: string, code: string)

  /** A program's degree is optional (`null=True`, set to null when the degree goes). */
  datatype Program = Program(degree: Option<Id>, name: string, code: string, preReqStream: Option<Stream>)

  /** Minor, MDC, VAC, AEC and AOC all share the `CourseModule` columns. */
  datatype Course = Course(name: string, code: string)

  /**
   * A major belongs to exactly one program and offers a set of minors and a
   * set of MDCs (many-to-many). The seat columns are integers that Python
   * code may leave as `None` before saving.
   */
  class Major {
    const name: string
    const code: string
    const prereqStream: Option<Stream>
    const program: Id
    const availableMinors: set<Id>
    const availableMdc: set<Id>
    var actualAvailableSeats: Option<int>
    var bufferSeats: Option<int>
    var totalSeats: Option<int>

    constructor (name: string, code: string, prereqStream: Option<Stream>, program: Id,
                 availableMinors: set<Id>, availableMdc: set<Id>,
                 actualAvailableSeats: Option<int>, bufferSeats: Option<int>)
      ensures this.name == name && this.code == code && this.prereqStream == prereqStream
      ensures this.program == program
      ensures this.availableMinors == availableMinors && this.availableMdc == availableMdc
      ensures this.actualAvailableSeats == actualAvailableSeats && this.bufferSeats == bufferSeats
      ensures totalSeats == None
    {
      this.name := name;
      this.code := code;
      this.prereqStream := prereqStream;
      this.program := program;
      this.availableMinors := availableMinors;
      this.availableMdc := availableMdc;
      this.actualAvailableSeats := actualAvailableSeats;
      this.bufferSeats := bufferSeats;
      totalSeats := None;
    }

    /** `save`: recompute the total from the two seat counts, a null counting as 0. */
    method Save()
      modifies this`totalSeats
      ensures totalSeats == Some(OrZero(actualAvailableSeats) + OrZero(bufferSeats))
      ensures actualAvailableSeats == old(actualAvailableSeats) && bufferSeats == old(bufferSeats)
    {
      totalSeats := Some(OrZero(actualAvailableSeats) + OrZero(bufferSeats));
    }
  }

  /** The whole catalog, each table keyed by primary key. */
  datatype Catalog = Catalog(
    degrees: map<Id, Degree>,
    programs: map<Id, Program>,
    majors: map<Id, Major>,
    minors: map<Id, Course>,
    mdcs: map<Id, Course>,
    vacs: map<Id, Course>,
    aecs: map<Id, Course>,
    aocs: map<Id, Course>)

  /** `degree.available_programs.all()`. */
  function ProgramsOfDegree(cat: Catalog, degree: Id): (r: set<Id>)
    ensures forall p :: p in r <==> p in cat.programs && cat.programs[p].degree == Some(degree)
  {
    set p | p in cat.programs && cat.programs[p].degree == Some(degree)
  }

  /** `program.majors.all()`. */
  function MajorsOfProgram(cat: Catalog, program: Id): (r: set<Id>)
    ensures forall m :: m in r <==> m in cat.majors && cat.majors[m].program == program
  {
    set m | m in cat.majors && cat.majors[m].program == program
  }

  /**
   * `CourseApplication`: the eight optional selections plus the fee columns
   * (the decimal fee is kept as an integer amount; nothing computes it).
   */
  datatype CourseApplication = CourseApplication(
    user: Id,
    degree: Option<Id>,
    program: Option<Id>,
    major: Option<Id>,
    minor: Option<Id>,
    mdc: Option<Id>,
    vac: Option<Id>,
    aec: Option<Id>,
    aoc: Option<Id>,
    feeAmount: int,
    isFeePaid: bool)

  /** The row `get_or_create(user=...)` creates: nothing selected, nothing owed or paid. */
  function NewCourseApplication(user: Id): (a: CourseApplication)
    ensures a.user == user && a.feeAmount == 0 && !a.isFeePaid
    ensures a.degree == None && a.program == None && a.major == None && a.minor == None
    ensures a.mdc == None && a.vac == None && a.aec == None && a.aoc == None
  {
    CourseApplication(user, None, None, None, None, None, None, None, None, 0, false)
  }
}
