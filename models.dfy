/**
 * The request and response models: the bounds and patterns the API checks on
 * every field, the grade-threshold settings and their ordering validator,
 * and the two grading result records.
 */
module Models {

  import opened Wrappers
  import opened Text
  import opened Documents

  // ---------------------------------------------------------------- roles

  datatype Role = Student | Teacher | Admin

  function RoleName(r: Role): string {
    match r
    case Student => "student"
    case Teacher => "teacher"
    case Admin => "admin"
  }

  /** The role enumeration accepts exactly its three spellings, each naming its own role. */
  function ParseRole(s: string): (r: Option<Role>)
    ensures r.Some? <==> (s == "student" || s == "teacher" || s == "admin")
    ensures r.Some? ==> RoleName(r.value) == s
  {
    if s == "student" then Some(Student)
    else if s == "teacher" then Some(Teacher)
    else if s == "admin" then Some(Admin)
    else None
  }

  // --------------------------------------------------------------- fields

  predicate LengthIn(s: string, lo: int, hi: int) {
    lo <= |s| <= hi
  }

  predicate OptLengthIn(s: Option<string>, lo: int, hi: int) {
    s.Some? ==> LengthIn(s.value, lo, hi)
  }

  predicate OptIntIn(n: Option<int>, lo: int, hi: int) {
    n.Some? ==> lo <= n.value <= hi
  }

  /**
   * What `^[^@]+@[^@]+\.[^@]+$` accepts: one '@' that is not the first
   * character, and a '.' after it with at least one character on each side.
   */
  ghost predicate MatchesEmailPattern(s: string) {
    exists i, j :: 0 < i && i + 1 < j < |s| - 1 && s[i] == '@' && s[j] == '.'
      && forall k :: 0 <= k < |s| && k != i ==> s[k] != '@'
  }

  /** The executable check: the first '@', no second one, a '.' strictly inside the domain part. */
  predicate EmailValid(s: string) {
    match IndexFrom(s, "@", 0)
    case None => false
    case Some(i) =>
      0 < i && IndexFrom(s, "@", i + 1).None? && i + 3 <= |s|
      && IndexFrom(s[..|s| - 1], ".", i + 2).Some?
  }

  lemma OccursAtChar(s: string, c: char, i: nat)
    ensures OccursAt(s, [c], i) <==> i < |s| && s[i] == c
  {
    if i < |s| && s[i] == c {
      assert s[i..i + 1] == [c];
    }
  }

  /** The executable email check accepts exactly the strings the pattern matches. */
  lemma EmailValidMatchesPattern(s: string)
    ensures EmailValid(s) <==> MatchesEmailPattern(s)
  {
    if EmailValid(s) {
      var i := IndexFrom(s, "@", 0).value;
      var j := IndexFrom(s[..|s| - 1], ".", i + 2).value;
      OccursAtChar(s, '@', i);
      OccursAtChar(s[..|s| - 1], '.', j);
      forall k | 0 <= k < |s| && k != i
        ensures s[k] != '@'
      {
        OccursAtChar(s, '@', k);
      }
      assert s[j] == '.';
    }
    if MatchesEmailPattern(s) {
      var i, j :| 0 < i && i + 1 < j < |s| - 1 && s[i] == '@' && s[j] == '.'
        && forall k :: 0 <= k < |s| && k != i ==> s[k] != '@';
      OccursAtChar(s, '@', i);
      var first := IndexFrom(s, "@", 0);
      OccursAtChar(s, '@', first.value);
      assert first.value == i;
      match IndexFrom(s, "@", i + 1) {
        case None =>
        case Some(k) =>
          OccursAtChar(s, '@', k);
          assert false;
      }
      OccursAtChar(s[..|s| - 1], '.', j);
      assert IndexFrom(s[..|s| - 1], ".", i + 2).Some?;
    }
  }

  // ---------------------------------------------------------------- users

  datatype UserBase = UserBase(username: string, email: string, role: Role, firstName: string, lastName: string)

  const DefaultFirstName := "Unknown"
  const DefaultLastName := "User"

  predicate ValidUserBase(u: UserBase) {
    LengthIn(u.username, 3, 50) && EmailValid(u.email)
    && LengthIn(u.firstName, 1, 50) && LengthIn(u.lastName, 1, 50)
  }

  predicate ValidPassword(p: string) {
    LengthIn(p, 6, 100)
  }

  datatype UserUpdate = UserUpdate(username: Option<string>, email: Option<string>, role: Option<Role>,
                                   firstName: Option<string>, lastName: Option<string>)

  predicate ValidUserUpdate(u: UserUpdate) {
    OptLengthIn(u.username, 3, 50) && (u.email.Some? ==> EmailValid(u.email.value))
    && OptLengthIn(u.firstName, 1, 50) && OptLengthIn(u.lastName, 1, 50)
  }

  function Or<T>(o: Option<T>, d: T): T {
    if o.Some? then o.value else d
  }

  /** A valid profile patched with a valid update is still a valid profile. */
  function ApplyUserUpdate(u: UserBase, p: UserUpdate): (r: UserBase)
    requires ValidUserBase(u) && ValidUserUpdate(p)
    ensures ValidUserBase(r)
    ensures r.username == Or(p.username, u.username) && r.email == Or(p.email, u.email)
    ensures r.role == Or(p.role, u.role)
    ensures r.firstName == Or(p.firstName, u.firstName) && r.lastName == Or(p.lastName, u.lastName)
  {
    UserBase(Or(p.username, u.username), Or(p.email, u.email), Or(p.role, u.role),
             Or(p.firstName, u.firstName), Or(p.lastName, u.lastName))
  }

  function OptText(s: Option<string>): Option<Value> {
    if s.Some? then Some(Text(s.value)) else None
  }

  function OptInt(n: Option<int>): Option<Value> {
    if n.Some? then Some(Int(n.value)) else None
  }

  /** The update model as a dictionary, fields in declaration order, `None` for an absent field. */
  function UserUpdateFields(u: UserUpdate): seq<(string, Option<Value>)> {
    [("username", OptText(u.username)), ("email", OptText(u.email)),
     ("role", if u.role.Some? then Some(Text(RoleName(u.role.value))) else None),
     ("first_name", OptText(u.firstName)), ("last_name", OptText(u.lastName))]
  }

  // -------------------------------------------------------------- courses

  datatype CourseBase = CourseBase(title: string, description: Option<string>, subject: string, academicYear: string)

  predicate ValidCourseBase(c: CourseBase) {
    LengthIn(c.title, 1, 200) && OptLengthIn(c.description, 0, 1000)
    && LengthIn(c.subject, 1, 100) && LengthIn(c.academicYear, 4, 9)
  }

  datatype CourseUpdate = CourseUpdate(title: Option<string>, description: Option<string>,
                                       subject: Option<string>, academicYear: Option<string>)

  predicate ValidCourseUpdate(c: CourseUpdate) {
    OptLengthIn(c.title, 1, 200) && OptLengthIn(c.description, 0, 1000)
    && OptLengthIn(c.subject, 1, 100) && OptLengthIn(c.academicYear, 4, 9)
  }

  function CourseUpdateFields(c: CourseUpdate): seq<(string, Option<Value>)> {
    [("title", OptText(c.title)), ("description", OptText(c.description)),
     ("subject", OptText(c.subject)), ("academic_year", OptText(c.academicYear))]
  }

  // ------------------------------------------------------------ questions

  const DefaultDifficulty := "medium"
  const DefaultPoints := 10

  predicate ValidDifficulty(s: string) {
    s == "easy" || s == "medium" || s == "hard"
  }

  datatype QuestionBase = QuestionBase(question: string, sampleAnswer: string, markingScheme: seq<string>,
                                       courseId: string, difficultyLevel: string, points: int)

  predicate ValidQuestionBase(q: QuestionBase) {
    LengthIn(q.question, 1, 2000) && LengthIn(q.sampleAnswer, 1, 2000) && |q.markingScheme| >= 1
    && ValidDifficulty(q.difficultyLevel) && 1 <= q.points <= 100
  }

  datatype QuestionUpdate = QuestionUpdate(question: Option<string>, sampleAnswer: Option<string>,
                                           markingScheme: Option<seq<string>>, difficultyLevel: Option<string>,
                                           points: Option<int>)

  predicate ValidQuestionUpdate(q: QuestionUpdate) {
    OptLengthIn(q.question, 1, 2000) && OptLengthIn(q.sampleAnswer, 1, 2000)
    && (q.markingScheme.Some? ==> |q.markingScheme.value| >= 1)
    && (q.difficultyLevel.Some? ==> ValidDifficulty(q.difficultyLevel.value))
    && OptIntIn(q.points, 1, 100)
  }

  /** A valid question patched with a valid update is still a valid question; its course never changes. */
  function ApplyQuestionUpdate(q: QuestionBase, p: QuestionUpdate): (r: QuestionBase)
    requires ValidQuestionBase(q) && ValidQuestionUpdate(p)
    ensures ValidQuestionBase(r) && r.courseId == q.courseId
    ensures r.question == Or(p.question, q.question) && r.sampleAnswer == Or(p.sampleAnswer, q.sampleAnswer)
    ensures r.markingScheme == Or(p.markingScheme, q.markingScheme)
    ensures r.difficultyLevel == Or(p.difficultyLevel, q.difficultyLevel) && r.points == Or(p.points, q.points)
  {
    QuestionBase(Or(p.question, q.question), Or(p.sampleAnswer, q.sampleAnswer),
                 Or(p.markingScheme, q.markingScheme), q.courseId,
                 Or(p.difficultyLevel, q.difficultyLevel), Or(p.points, q.points))
  }

  function QuestionUpdateFields(q: QuestionUpdate): seq<(string, Option<Value>)> {
    [("question", OptText(q.question)), ("sample_answer", OptText(q.sampleAnswer)),
     ("marking_scheme", if q.markingScheme.Some? then Some(List(TextList(q.markingScheme.value))) else None),
     ("difficulty_level", OptText(q.difficultyLevel)), ("points", OptInt(q.points))]
  }

  function TextList(ss: seq<string>): (vs: seq<Value>)
    ensures |vs| == |ss| && forall k :: 0 <= k < |ss| ==> vs[k] == Text(ss[k])
  {
    seq(|ss|, k requires 0 <= k < |ss| => Text(ss[k]))
  }

  // ---------------------------------------------------------------- tests

  datatype TestBase = TestBase(title: string, description: Option<string>, courseId: string,
                               durationMinutes: int, totalPoints: int, isActive: bool)

  predicate ValidTestBase(t: TestBase) {
    LengthIn(t.title, 1, 200) && OptLengthIn(t.description, 0, 1000)
    && 15 <= t.durationMinutes <= 480 && 10 <= t.totalPoints <= 1000
  }

  datatype TestCreate = TestCreate(base: TestBase, questionIds: seq<string>)

  predicate ValidTestCreate(t: TestCreate) {
    ValidTestBase(t.base) && |t.questionIds| >= 1
  }

  datatype TestUpdate = TestUpdate(title: Option<string>, description: Option<string>,
                                   durationMinutes: Option<int>, totalPoints: Option<int>,
                                   isActive: Option<bool>, questionIds: Option<seq<string>>)

  predicate ValidTestUpdate(t: TestUpdate) {
    OptLengthIn(t.title, 1, 200) && OptLengthIn(t.description, 0, 1000)
    && OptIntIn(t.durationMinutes, 15, 480) && OptIntIn(t.totalPoints, 10, 1000)
    && (t.questionIds.Some? ==> |t.questionIds.value| >= 1)
  }

  /** A valid test patched with a valid update is still a valid test with at least one question. */
  function ApplyTestUpdate(t: TestCreate, p: TestUpdate): (r: TestCreate)
    requires ValidTestCreate(t) && ValidTestUpdate(p)
    ensures ValidTestCreate(r) && r.base.courseId == t.base.courseId
    ensures r.base.title == Or(p.title, t.base.title) && r.base.description == (if p.description.Some? then p.description else t.base.description)
    ensures r.base.durationMinutes == Or(p.durationMinutes, t.base.durationMinutes)
    ensures r.base.totalPoints == Or(p.totalPoints, t.base.totalPoints)
    ensures r.base.isActive == Or(p.isActive, t.base.isActive)
    ensures r.questionIds == Or(p.questionIds, t.questionIds)
  {
    var b := t.base;
    TestCreate(TestBase(Or(p.title, b.title), if p.description.Some? then p.description else b.description,
                        b.courseId, Or(p.durationMinutes, b.durationMinutes), Or(p.totalPoints, b.totalPoints),
                        Or(p.isActive, b.isActive)),
               Or(p.questionIds, t.questionIds))
  }

  function TestUpdateFields(t: TestUpdate): seq<(string, Option<Value>)> {
    [("title", OptText(t.title)), ("description", OptText(t.description)),
     ("duration_minutes", OptInt(t.durationMinutes)), ("total_points", OptInt(t.totalPoints)),
     ("is_active", if t.isActive.Some? then Some(Bool(t.isActive.value)) else None),
     ("question_ids", if t.questionIds.Some? then Some(List(TextList(t.questionIds.value))) else None)]
  }

  // ------------------------------------------------------- grade thresholds

  datatype Letter = A | B | C | D | F

  function LetterName(l: Letter): string {
    match l
    case A => "A"
    case B => "B"
    case C => "C"
    case D => "D"
    case F => "F"
  }

  /** The model's declared default for each cutoff. */
  function DefaultCutoff(l: Letter): int {
    match l
    case A => 85
    case B => 70
    case C => 55
    case D => 40
    case F => 0
  }

  /** The field each cutoff is compared with: the letter just above it. */
  function Above(l: Letter): Option<Letter> {
    match l
    case A => None
    case B => Some(A)
    case C => Some(B)
    case D => Some(C)
    case F => Some(D)
  }

  datatype Thresholds = Thresholds(a: int, b: int, c: int, d: int, f: int)

  const DefaultThresholds := Thresholds(85, 70, 55, 40, 0)

  function Cutoff(t: Thresholds, l: Letter): int {
    match l
    case A => t.a
    case B => t.b
    case C => t.c
    case D => t.d
    case F => t.f
  }

  predicate InRange(t: Thresholds) {
    0 <= t.a <= 100 && 0 <= t.b <= 100 && 0 <= t.c <= 100 && 0 <= t.d <= 100 && 0 <= t.f <= 100
  }

  predicate StrictlyDescending(t: Thresholds) {
    t.b < t.a && t.c < t.b && t.d < t.c && t.f < t.d
  }

  datatype FieldError = FieldError(field: Letter, message: string)

  /** The cutoff already validated for `l`, or the hard-coded fallback when `l` has none. */
  function Validated(data: map<Letter, int>, l: Letter): int {
    if l in data then data[l] else DefaultCutoff(l)
  }

  /**
   * The ordering validator: A always passes; every other cutoff must be
   * strictly below the validated cutoff of the letter above it, or below that
   * letter's hard-coded default when the letter above failed validation.
   */
  function ValidateThreshold(field: Letter, v: int, data: map<Letter, int>): (r: Result<int, string>)
    ensures field == A ==> r == Ok(v)
    ensures field != A ==> (r.Ok? <==> v < Validated(data, Above(field).value))
    ensures r.Ok? ==> r.value == v
  {
    match Above(field)
    case None => Ok(v)
    case Some(above) =>
      if v >= Validated(data, above) then
        Err(LetterName(field) + " threshold must be lower than " + LetterName(above) + " threshold")
      else Ok(v)
  }

  /** The value a field ends up with when it passes: the supplied one, else the default. */
  function Supplied(input: map<Letter, int>, l: Letter): int {
    if l in input then input[l] else DefaultCutoff(l)
  }

  /**
   * One field as the model validates it: a supplied value is range-checked and
   * then passed to the ordering validator; an omitted field takes its default,
   * which is validated only when `validateDefault` is set.
   */
  function ValidateField(field: Letter, input: map<Letter, int>, data: map<Letter, int>,
                         errors: seq<FieldError>, validateDefault: bool): (r: (map<Letter, int>, seq<FieldError>))
    ensures |r.1| == |errors| || (|r.1| == |errors| + 1 && r.1[..|errors|] == errors)
    ensures |r.1| == |errors| ==> r.1 == errors && r.0 == data[field := Supplied(input, field)]
    ensures |r.1| == |errors| && (field in input || validateDefault) ==>
              0 <= Supplied(input, field) <= 100 && ValidateThreshold(field, Supplied(input, field), data).Ok?
    ensures |r.1| != |errors| ==> r.0 == data && r.1[|errors|].field == field
  {
    if field !in input && !validateDefault then
      (data[field := DefaultCutoff(field)], errors)
    else
      var v := Supplied(input, field);
      if v < 0 then
        (data, errors + [FieldError(field, "Input should be greater than or equal to 0")])
      else if v > 100 then
        (data, errors + [FieldError(field, "Input should be less than or equal to 100")])
      else
        match ValidateThreshold(field, v, data)
        case Ok(w) => (data[field := w], errors)
        case Err(m) => (data, errors + [FieldError(field, m)])
  }

  /** The five fields in declaration order, each seeing the ones validated before it. */
  function Build(input: map<Letter, int>, validateDefault: bool): Result<Thresholds, seq<FieldError>> {
    var (d1, e1) := ValidateField(A, input, map[], [], validateDefault);
    var (d2, e2) := ValidateField(B, input, d1, e1, validateDefault);
    var (d3, e3) := ValidateField(C, input, d2, e2, validateDefault);
    var (d4, e4) := ValidateField(D, input, d3, e3, validateDefault);
    var (d5, e5) := ValidateField(F, input, d4, e4, validateDefault);
    if e5 == [] then Ok(Thresholds(d5[A], d5[B], d5[C], d5[D], d5[F])) else Err(e5)
  }

  /** The settings model as the framework builds it: defaults are not validated. */
  function BuildThresholds(input: map<Letter, int>): Result<Thresholds, seq<FieldError>> {
    Build(input, false)
  }

  /** The settings model with defaults validated too, so that every accepted table is ordered. */
  function BuildThresholdsValidated(input: map<Letter, int>): Result<Thresholds, seq<FieldError>> {
    Build(input, true)
  }

  function FromInput(input: map<Letter, int>): Thresholds {
    Thresholds(Supplied(input, A), Supplied(input, B), Supplied(input, C), Supplied(input, D), Supplied(input, F))
  }

  predicate AllSupplied(input: map<Letter, int>) {
    A in input && B in input && C in input && D in input && F in input
  }

  /**
   * When every cutoff is supplied, the model accepts the table exactly when
   * each cutoff is in [0, 100] and the table is strictly descending, and then
   * keeps the supplied values.
   */
  lemma CompleteTableAcceptedIffOrdered(input: map<Letter, int>)
    requires AllSupplied(input)
    ensures BuildThresholds(input).Ok? <==> InRange(FromInput(input)) && StrictlyDescending(FromInput(input))
    ensures BuildThresholds(input).Ok? ==> BuildThresholds(input).value == FromInput(input)
  {
    VariantsAgreeOnCompleteInput(input);
    ValidatedTablesAreOrdered(input);
    var t := FromInput(input);
    var (d1, e1) := ValidateField(A, input, map[], [], false);
    var (d2, e2) := ValidateField(B, input, d1, e1, false);
    var (d3, e3) := ValidateField(C, input, d2, e2, false);
    var (d4, e4) := ValidateField(D, input, d3, e3, false);
    var (d5, e5) := ValidateField(F, input, d4, e4, false);
    if InRange(t) && StrictlyDescending(t) {
      assert e1 == [] && d1 == map[A := t.a];
      assert e2 == [] && d2 == d1[B := t.b];
      assert e3 == [] && d3 == d2[C := t.c];
      assert e4 == [] && d4 == d3[D := t.d];
      assert e5 == [];
    }
  }

  /** With no field supplied the model holds the defaults 85/70/55/40/0, which are ordered. */
  lemma DefaultsAccepted()
    ensures BuildThresholds(map[]) == Ok(DefaultThresholds)
    ensures BuildThresholdsValidated(map[]) == Ok(DefaultThresholds)
    ensures InRange(DefaultThresholds) && StrictlyDescending(DefaultThresholds)
  {
  }

  /**
   * Only supplied cutoffs are compared with the one above them: supplying A
   * alone as 50 is accepted, and the defaulted B (70) then lies above A.
   */
  lemma DefaultsEscapeOrdering()
    ensures BuildThresholds(map[A := 50]) == Ok(Thresholds(50, 70, 55, 40, 0))
    ensures !StrictlyDescending(BuildThresholds(map[A := 50]).value)
  {
    var input := map[A := 50];
    var (d1, e1) := ValidateField(A, input, map[], [], false);
    assert e1 == [] && d1 == map[A := 50];
  }

  /** Every table the validating variant accepts is in range, strictly descending and as supplied. */
  lemma ValidatedTablesAreOrdered(input: map<Letter, int>)
    ensures BuildThresholdsValidated(input).Ok? ==>
              var t := BuildThresholdsValidated(input).value;
              t == FromInput(input) && InRange(t) && StrictlyDescending(t)
  {
    var (d1, e1) := ValidateField(A, input, map[], [], true);
    var (d2, e2) := ValidateField(B, input, d1, e1, true);
    var (d3, e3) := ValidateField(C, input, d2, e2, true);
    var (d4, e4) := ValidateField(D, input, d3, e3, true);
    var (d5, e5) := ValidateField(F, input, d4, e4, true);
    if e5 == [] {
      assert e4 == [] && e3 == [] && e2 == [] && e1 == [];
      assert Validated(d1, A) == Supplied(input, A);
      assert Validated(d2, B) == Supplied(input, B);
      assert Validated(d3, C) == Supplied(input, C);
      assert Validated(d4, D) == Supplied(input, D);
    }
  }

  /** On complete input the two variants agree: the difference lies only in omitted fields. */
  lemma VariantsAgreeOnCompleteInput(input: map<Letter, int>)
    requires AllSupplied(input)
    ensures BuildThresholds(input) == BuildThresholdsValidated(input)
  {
    var (d1, e1) := ValidateField(A, input, map[], [], false);
    var (d2, e2) := ValidateField(B, input, d1, e1, false);
    var (d3, e3) := ValidateField(C, input, d2, e2, false);
    var (d4, e4) := ValidateField(D, input, d3, e3, false);
    FieldVariantsAgree(A, input, map[], []);
    FieldVariantsAgree(B, input, d1, e1);
    FieldVariantsAgree(C, input, d2, e2);
    FieldVariantsAgree(D, input, d3, e3);
    FieldVariantsAgree(F, input, d4, e4);
  }

  /** A supplied field is validated the same way by both variants. */
  lemma FieldVariantsAgree(field: Letter, input: map<Letter, int>, data: map<Letter, int>, errors: seq<FieldError>)
    requires field in input
    ensures ValidateField(field, input, data, errors, false) == ValidateField(field, input, data, errors, true)
  {
  }

  // ------------------------------------------------------- grading results

  datatype GradingResult = GradingResult(
    studentName: string,
    studentRollNo: string,
    questionId: string,
    courseId: string,
    score: real,
    grade: string,
    pointsEarned: real,
    matchedRules: seq<string>,
    missedRules: seq<string>)

  predicate ValidGradingResult(g: GradingResult) {
    0.0 <= g.score <= 1.0
  }

  datatype TestGradingResult = TestGradingResult(
    testId: string,
    courseId: string,
    studentName: string,
    studentRollNo: string,
    overallScore: real,
    overallGrade: string,
    totalPointsEarned: real,
    questionResults: seq<GradingResult>)

  predicate ValidTestGradingResult(t: TestGradingResult) {
    0.0 <= t.overallScore <= 1.0
    && forall k :: 0 <= k < |t.questionResults| ==> ValidGradingResult(t.questionResults[k])
  }
}
