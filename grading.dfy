/**
 * The grading endpoints. Grading a course pairs every question of the course
 * with every stored answer to it, in question-then-answer order. Grading a
 * test grades each submission question by question, skipping questions the
 * teacher does not own or that no longer exist, and summarises it by the
 * unweighted mean of the question scores and the total of points earned.
 */
module Grading {

  import opened Wrappers
  import opened Models
  import opened GradeScale
  import opened Errors
  import opened Database
  import opened Rules
  import opened Grader

  // --------------------------------------------------------- course grading

  /** A stored student answer of the course being graded. */
  datatype StudentAnswer = StudentAnswer(questionId: string, studentName: string, studentRollNo: string, answer: string)

  /** How an answer to a question is graded: the properties below hold for any such grading. */
  type Grade = (string, Question) -> Outcome

  /** `grade_answer` against the question's sample answer and marking scheme, with the given thresholds. */
  function GradeWith(o: Oracle, table: Table): Grade {
    (answer: string, q: Question) => AnswerOutcome(o, answer, q.sampleAnswer, q.markingScheme, table)
  }

  /** Every outcome has a score in [0, 1]. */
  ghost predicate ScoresInUnitRange(grade: Grade) {
    forall answer, q :: 0.0 <= grade(answer, q).score <= 1.0
  }

  /** With a similarity in [-1, 1], `grade_answer`'s scores lie in [0, 1]. */
  lemma GradeWithInUnitRange(o: Oracle, table: Table)
    requires ValidOracle(o)
    ensures ScoresInUnitRange(GradeWith(o, table))
  {
    forall answer, q ensures 0.0 <= GradeWith(o, table)(answer, q).score <= 1.0 {
      ScoreInUnitRange(o, answer, q.sampleAnswer, q.markingScheme, table);
    }
  }

  /** The result for a student's answer to a question: the outcome, and the score times the question's points. */
  function ResultFor(grade: Grade, q: Question, questionId: string, courseId: string,
                     studentName: string, studentRollNo: string, answer: string): (g: GradingResult)
    ensures g.questionId == questionId && g.courseId == courseId
    ensures g.studentName == studentName && g.studentRollNo == studentRollNo
    ensures g.pointsEarned == g.score * q.points as real
  {
    var out := grade(answer, q);
    GradingResult(studentName, studentRollNo, questionId, courseId, out.score, out.grade,
                  out.score * q.points as real, out.matchedRules, out.missedRules)
  }

  /** The course result for one stored answer to one question. */
  function CourseResult(grade: Grade, courseId: string, q: Question, a: StudentAnswer): GradingResult {
    ResultFor(grade, q, q.id, courseId, a.studentName, a.studentRollNo, a.answer)
  }

  /** The results for one question: one per answer to it, in answer order. */
  function QuestionPairs(grade: Grade, courseId: string, q: Question, answers: seq<StudentAnswer>): seq<GradingResult> {
    if answers == [] then []
    else
      var rest := QuestionPairs(grade, courseId, q, answers[..|answers| - 1]);
      var a := answers[|answers| - 1];
      if a.questionId == q.id then rest + [CourseResult(grade, courseId, q, a)] else rest
  }

  /** The results of a course: each question's results, in question order. */
  function CourseResults(grade: Grade, courseId: string, qs: seq<Question>, answers: seq<StudentAnswer>): seq<GradingResult> {
    if qs == [] then []
    else CourseResults(grade, courseId, qs[..|qs| - 1], answers) + QuestionPairs(grade, courseId, qs[|qs| - 1], answers)
  }

  lemma QuestionPairsStep(grade: Grade, courseId: string, q: Question, answers: seq<StudentAnswer>, j: nat)
    requires j < |answers|
    ensures QuestionPairs(grade, courseId, q, answers[..j + 1]) ==
      QuestionPairs(grade, courseId, q, answers[..j])
      + (if answers[j].questionId == q.id then [CourseResult(grade, courseId, q, answers[j])] else [])
  {
    assert answers[..j + 1][..j] == answers[..j];
  }

  lemma CourseResultsStep(grade: Grade, courseId: string, qs: seq<Question>, answers: seq<StudentAnswer>, i: nat)
    requires i < |qs|
    ensures CourseResults(grade, courseId, qs[..i + 1], answers) ==
      CourseResults(grade, courseId, qs[..i], answers) + QuestionPairs(grade, courseId, qs[i], answers)
  {
    assert qs[..i + 1][..i] == qs[..i];
  }

  /** A course without answers grades to nothing. */
  lemma {:induction false} NoAnswersNoResults(grade: Grade, courseId: string, qs: seq<Question>)
    ensures CourseResults(grade, courseId, qs, []) == []
  {
    if qs != [] {
      NoAnswersNoResults(grade, courseId, qs[..|qs| - 1]);
    }
  }

  /** Every result for a question is the grading of an answer to it. */
  lemma {:induction false} QuestionPairsSound(grade: Grade, courseId: string, q: Question, answers: seq<StudentAnswer>, g: GradingResult)
    requires g in QuestionPairs(grade, courseId, q, answers)
    ensures exists j :: 0 <= j < |answers| && answers[j].questionId == q.id && g == CourseResult(grade, courseId, q, answers[j])
  {
    var init := answers[..|answers| - 1];
    if g in QuestionPairs(grade, courseId, q, init) {
      QuestionPairsSound(grade, courseId, q, init, g);
      var j :| 0 <= j < |init| && init[j].questionId == q.id && g == CourseResult(grade, courseId, q, init[j]);
      assert answers[j] == init[j];
    } else {
      assert g == CourseResult(grade, courseId, q, answers[|answers| - 1]);
    }
  }

  /** Every answer to a question is graded for it. */
  lemma {:induction false} QuestionPairsComplete(grade: Grade, courseId: string, q: Question, answers: seq<StudentAnswer>, j: nat)
    requires j < |answers| && answers[j].questionId == q.id
    ensures CourseResult(grade, courseId, q, answers[j]) in QuestionPairs(grade, courseId, q, answers)
  {
    var init := answers[..|answers| - 1];
    if j < |init| {
      assert init[j] == answers[j];
      QuestionPairsComplete(grade, courseId, q, init, j);
    }
  }

  /** Every course result is the grading of an answer against the question it answers. */
  lemma {:induction false} CourseResultsSound(grade: Grade, courseId: string, qs: seq<Question>, answers: seq<StudentAnswer>, g: GradingResult)
    requires g in CourseResults(grade, courseId, qs, answers)
    ensures exists i, j :: 0 <= i < |qs| && 0 <= j < |answers| && answers[j].questionId == qs[i].id
                           && g == CourseResult(grade, courseId, qs[i], answers[j])
  {
    var init := qs[..|qs| - 1];
    if g in CourseResults(grade, courseId, init, answers) {
      CourseResultsSound(grade, courseId, init, answers, g);
      var i, j :| 0 <= i < |init| && 0 <= j < |answers| && answers[j].questionId == init[i].id
                  && g == CourseResult(grade, courseId, init[i], answers[j]);
      assert qs[i] == init[i];
    } else {
      QuestionPairsSound(grade, courseId, qs[|qs| - 1], answers, g);
    }
  }

  /** Every (question, answer to it) pair of the course is graded. */
  lemma {:induction false} CourseResultsComplete(grade: Grade, courseId: string, qs: seq<Question>, answers: seq<StudentAnswer>, i: nat, j: nat)
    requires i < |qs| && j < |answers| && answers[j].questionId == qs[i].id
    ensures CourseResult(grade, courseId, qs[i], answers[j]) in CourseResults(grade, courseId, qs, answers)
  {
    var init := qs[..|qs| - 1];
    if i < |init| {
      assert init[i] == qs[i];
      CourseResultsComplete(grade, courseId, init, answers, i, j);
    } else {
      QuestionPairsComplete(grade, courseId, qs[i], answers, j);
    }
  }

  /** When every outcome has a score in [0, 1], so has every course result, as the result model demands. */
  lemma CourseResultsValid(grade: Grade, courseId: string, qs: seq<Question>, answers: seq<StudentAnswer>)
    requires ScoresInUnitRange(grade)
    ensures forall g :: g in CourseResults(grade, courseId, qs, answers) ==> ValidGradingResult(g)
  {
    forall g | g in CourseResults(grade, courseId, qs, answers) ensures ValidGradingResult(g) {
      CourseResultsSound(grade, courseId, qs, answers, g);
    }
  }

  /** `grade_answer` on one answer, turned into the result for it. */
  method GradeOne(o: Oracle, table: Table, q: Question, questionId: string, courseId: string,
                  studentName: string, studentRollNo: string, answer: string) returns (g: GradingResult)
    ensures g == ResultFor(GradeWith(o, table), q, questionId, courseId, studentName, studentRollNo, answer)
  {
    var out := GradeAnswer(o, answer, q.sampleAnswer, q.markingScheme, table);
    assert out == GradeWith(o, table)(answer, q);
    var pointsEarned := out.score * q.points as real;
    g := GradingResult(studentName, studentRollNo, questionId, courseId, out.score, out.grade,
                       pointsEarned, out.matchedRules, out.missedRules);
  }

  /** The inner loop of course grading: the answers to one question, graded in order. */
  method GradeQuestion(o: Oracle, table: Table, courseId: string, q: Question, answers: seq<StudentAnswer>)
    returns (results: seq<GradingResult>)
    ensures results == QuestionPairs(GradeWith(o, table), courseId, q, answers)
  {
    ghost var grade := GradeWith(o, table);
    results := [];
    var j := 0;
    while j < |answers|
      invariant 0 <= j <= |answers|
      invariant results == QuestionPairs(grade, courseId, q, answers[..j])
    {
      QuestionPairsStep(grade, courseId, q, answers, j);
      if answers[j].questionId == q.id {
        var a := answers[j];
        var g := GradeOne(o, table, q, q.id, courseId, a.studentName, a.studentRollNo, a.answer);
        results := results + [g];
      }
      j := j + 1;
    }
    assert answers[..j] == answers;
  }

  /**
   * `POST /grade/course/{id}`: 404 unless the course exists and the teacher
   * owns it; otherwise the results over the course's stored questions and
   * the given answers (the course's stored answers), graded with the
   * teacher's thresholds.
   */
  method GradeCourseAnswers(store: Store, o: Oracle, courseId: string, teacher: User, answers: seq<StudentAnswer>, now: int)
    returns (r: Result<seq<GradingResult>, ApiError>)
    ensures courseId !in store.courses || store.courses[courseId].teacherId != teacher.id ==>
      r == Err(HttpError(404, "Course not found"))
    ensures courseId in store.courses && store.courses[courseId].teacherId == teacher.id ==>
      r == Ok(CourseResults(GradeWith(o, ThresholdsIn(store.settings, teacher.id)), courseId,
                            QuestionsOf(store.questions, courseId, now), answers))
  {
    if courseId !in store.courses || store.courses[courseId].teacherId != teacher.id {
      return Err(HttpError(404, "Course not found"));
    }
    var questions := store.GetQuestionsByCourse(courseId, now);
    var table := store.GetGradeThresholds(teacher.id);
    ghost var grade := GradeWith(o, table);
    if |questions| == 0 || |answers| == 0 {
      NoAnswersNoResults(grade, courseId, questions);
      return Ok([]);
    }
    var results: seq<GradingResult> := [];
    var i := 0;
    while i < |questions|
      invariant 0 <= i <= |questions|
      invariant results == CourseResults(grade, courseId, questions[..i], answers)
    {
      CourseResultsStep(grade, courseId, questions, answers, i);
      var forQuestion := GradeQuestion(o, table, courseId, questions[i], answers);
      results := results + forQuestion;
      i := i + 1;
    }
    assert questions[..i] == questions;
    return Ok(results);
  }

  // ----------------------------------------------------------- test grading

  /** A stored test, as far as the ownership check reads it. */
  datatype TestDoc = TestDoc(id: string, teacherId: string)

  /** A stored submission: the student's answer to each question of the test, in submission order. */
  datatype TestAnswer = TestAnswer(courseId: string, studentName: string, studentRollNo: string,
                                   questionAnswers: seq<(string, string)>)

  /** One persisted test-grade row: a question result with its submission's summary. */
  datatype TestGradeRow = TestGradeRow(testId: string, teacherId: string, studentName: string, studentRollNo: string,
                                       questionId: string, score: real, grade: string,
                                       overallScore: real, overallGrade: string, courseId: string)

  /** How a question id is looked up: the question, or nothing when it is not found. */
  type Lookup = string -> Option<Question>

  /** `get_question_by_id` over the stored questions: the teacher's question with that id, normalised. */
  function LookupIn(questions: seq<QuestionDoc>, teacherId: string, now: int): Lookup {
    (questionId: string) => QuestionById(questions, questionId, teacherId, now)
  }

  /** The result for one answered question of a submission. */
  function TestQuestionResult(grade: Grade, ta: TestAnswer, questionId: string, q: Question, answer: string): GradingResult {
    ResultFor(grade, q, questionId, ta.courseId, ta.studentName, ta.studentRollNo, answer)
  }

  /** The result for one (question id, answer) pair of a submission; nothing when the question is not found. */
  function Answered(grade: Grade, lookup: Lookup, ta: TestAnswer, p: (string, string)): Option<GradingResult> {
    var q := lookup(p.0);
    if q.Some? then Some(TestQuestionResult(grade, ta, p.0, q.value, p.1)) else None
  }

  /** The results of the answered questions that are found, in submission order; the others are skipped. */
  function SubmissionResults(grade: Grade, lookup: Lookup, ta: TestAnswer, pairs: seq<(string, string)>): (qr: seq<GradingResult>)
    ensures |qr| <= |pairs|
  {
    if pairs == [] then []
    else
      var rest := SubmissionResults(grade, lookup, ta, pairs[..|pairs| - 1]);
      var r := Answered(grade, lookup, ta, pairs[|pairs| - 1]);
      if r.Some? then rest + [r.value] else rest
  }

  /** The question scores, in order. */
  function Scores(qr: seq<GradingResult>): (xs: seq<real>)
    ensures |xs| == |qr|
  {
    if qr == [] then [] else Scores(qr[..|qr| - 1]) + [qr[|qr| - 1].score]
  }

  /** The score list holds each question result's score at its position. */
  lemma {:induction false} ScoresAre(qr: seq<GradingResult>)
    ensures forall k :: 0 <= k < |qr| ==> Scores(qr)[k] == qr[k].score
  {
    if qr != [] {
      ScoresAre(qr[..|qr| - 1]);
    }
  }

  /** Python's `sum` over a list of numbers, left to right. */
  function Sum(xs: seq<real>): real {
    if xs == [] then 0.0 else Sum(xs[..|xs| - 1]) + xs[|xs| - 1]
  }

  function TotalPoints(qr: seq<GradingResult>): real {
    if qr == [] then 0.0 else TotalPoints(qr[..|qr| - 1]) + qr[|qr| - 1].pointsEarned
  }

  /** The running score list and points total agree with the question results so far. */
  predicate Accumulated(qr: seq<GradingResult>, scores: seq<real>, total: real) {
    scores == Scores(qr) && total == TotalPoints(qr)
  }

  lemma AppendResult(qr: seq<GradingResult>, scores: seq<real>, total: real, g: GradingResult)
    requires Accumulated(qr, scores, total)
    ensures Accumulated(qr + [g], scores + [g.score], total + g.pointsEarned)
  {
    assert (qr + [g])[..|qr|] == qr;
  }

  /** The unweighted mean of the question scores. */
  function MeanScore(qr: seq<GradingResult>): real
    requires qr != []
  {
    Sum(Scores(qr)) / |qr| as real
  }

  /** The summary of a submission; none when no answered question was found. */
  function Summary(grade: Grade, lookup: Lookup, table: Table, testId: string, ta: TestAnswer): Option<TestGradingResult> {
    var qr := SubmissionResults(grade, lookup, ta, ta.questionAnswers);
    if qr == [] then None
    else Some(TestGradingResult(testId, ta.courseId, ta.studentName, ta.studentRollNo,
                                MeanScore(qr), AssignGrade(MeanScore(qr), table), TotalPoints(qr), qr))
  }

  /** The summaries of the submissions, in submission order. */
  function TestResults(grade: Grade, lookup: Lookup, table: Table, testId: string, answers: seq<TestAnswer>): (rs: seq<TestGradingResult>)
    ensures |rs| <= |answers|
  {
    if answers == [] then []
    else
      var rest := TestResults(grade, lookup, table, testId, answers[..|answers| - 1]);
      var s := Summary(grade, lookup, table, testId, answers[|answers| - 1]);
      if s.Some? then rest + [s.value] else rest
  }

  /** The row saved for one question result of a summary. */
  function Row(testId: string, teacherId: string, t: TestGradingResult, g: GradingResult): TestGradeRow {
    TestGradeRow(testId, teacherId, t.studentName, t.studentRollNo, g.questionId, g.score, g.grade,
                 t.overallScore, t.overallGrade, t.courseId)
  }

  function RowsOf(testId: string, teacherId: string, t: TestGradingResult, qr: seq<GradingResult>): (rows: seq<TestGradeRow>)
    ensures |rows| == |qr|
  {
    if qr == [] then [] else RowsOf(testId, teacherId, t, qr[..|qr| - 1]) + [Row(testId, teacherId, t, qr[|qr| - 1])]
  }

  /** The rows saved for the summaries: one per question result, summary by summary. */
  function SavedRows(testId: string, teacherId: string, results: seq<TestGradingResult>): seq<TestGradeRow> {
    if results == [] then []
    else
      var t := results[|results| - 1];
      SavedRows(testId, teacherId, results[..|results| - 1]) + RowsOf(testId, teacherId, t, t.questionResults)
  }

  /** The number of question results over all summaries. */
  function CountQuestionResults(results: seq<TestGradingResult>): nat {
    if results == [] then 0
    else CountQuestionResults(results[..|results| - 1]) + |results[|results| - 1].questionResults|
  }

  // ------------------------------------------------------- test lemmas

  lemma SubmissionResultsStep(grade: Grade, lookup: Lookup, ta: TestAnswer, pairs: seq<(string, string)>, k: nat)
    requires k < |pairs|
    ensures var r := Answered(grade, lookup, ta, pairs[k]);
      SubmissionResults(grade, lookup, ta, pairs[..k + 1]) ==
        SubmissionResults(grade, lookup, ta, pairs[..k]) + (if r.Some? then [r.value] else [])
  {
    assert pairs[..k + 1][..k] == pairs[..k];
  }

  /** Every question result of a submission grades an answered question that was found. */
  lemma {:induction false} SubmissionResultsSound(grade: Grade, lookup: Lookup, ta: TestAnswer, pairs: seq<(string, string)>, g: GradingResult)
    requires g in SubmissionResults(grade, lookup, ta, pairs)
    ensures exists k :: 0 <= k < |pairs| && lookup(pairs[k].0).Some?
                        && g == TestQuestionResult(grade, ta, pairs[k].0, lookup(pairs[k].0).value, pairs[k].1)
  {
    var init := pairs[..|pairs| - 1];
    if g in SubmissionResults(grade, lookup, ta, init) {
      SubmissionResultsSound(grade, lookup, ta, init, g);
      var k :| 0 <= k < |init| && lookup(init[k].0).Some?
               && g == TestQuestionResult(grade, ta, init[k].0, lookup(init[k].0).value, init[k].1);
      assert pairs[k] == init[k];
    }
  }

  /** Every answered question that is found is graded. */
  lemma {:induction false} SubmissionResultsComplete(grade: Grade, lookup: Lookup, ta: TestAnswer, pairs: seq<(string, string)>, k: nat)
    requires k < |pairs| && lookup(pairs[k].0).Some?
    ensures TestQuestionResult(grade, ta, pairs[k].0, lookup(pairs[k].0).value, pairs[k].1)
            in SubmissionResults(grade, lookup, ta, pairs)
  {
    var init := pairs[..|pairs| - 1];
    if k < |init| {
      assert init[k] == pairs[k];
      SubmissionResultsComplete(grade, lookup, ta, init, k);
    }
  }

  /** A submission has question results exactly when one of its answered questions is found. */
  lemma NothingFoundNothingGraded(grade: Grade, lookup: Lookup, ta: TestAnswer, pairs: seq<(string, string)>)
    ensures SubmissionResults(grade, lookup, ta, pairs) == [] <==> forall k :: 0 <= k < |pairs| ==> lookup(pairs[k].0).None?
  {
    var qr := SubmissionResults(grade, lookup, ta, pairs);
    if qr != [] {
      SubmissionResultsSound(grade, lookup, ta, pairs, qr[0]);
    }
    if exists k :: 0 <= k < |pairs| && lookup(pairs[k].0).Some? {
      var k :| 0 <= k < |pairs| && lookup(pairs[k].0).Some?;
      SubmissionResultsComplete(grade, lookup, ta, pairs, k);
    }
  }

  /** Scores in [0, 1] sum to between 0 and their count. */
  lemma {:induction false} ScoreSumInRange(qr: seq<GradingResult>)
    requires forall k :: 0 <= k < |qr| ==> 0.0 <= qr[k].score <= 1.0
    ensures 0.0 <= Sum(Scores(qr)) <= |qr| as real
  {
    if qr != [] {
      var init := qr[..|qr| - 1];
      ScoreSumInRange(init);
      var xs := Scores(qr);
      assert xs[..|xs| - 1] == Scores(init);
    }
  }

  /** The mean of scores in [0, 1] lies in [0, 1]. */
  lemma MeanInUnitRange(qr: seq<GradingResult>)
    requires qr != [] && forall k :: 0 <= k < |qr| ==> 0.0 <= qr[k].score <= 1.0
    ensures 0.0 <= MeanScore(qr) <= 1.0
  {
    ScoreSumInRange(qr);
    RatioInUnitRange(Sum(Scores(qr)), |qr| as real);
  }

  /** With every outcome in [0, 1], a submission's summary satisfies the test result model. */
  lemma SummaryValid(grade: Grade, lookup: Lookup, table: Table, testId: string, ta: TestAnswer)
    requires ScoresInUnitRange(grade)
    requires Summary(grade, lookup, table, testId, ta).Some?
    ensures ValidTestGradingResult(Summary(grade, lookup, table, testId, ta).value)
  {
    var qr := SubmissionResults(grade, lookup, ta, ta.questionAnswers);
    forall k | 0 <= k < |qr| ensures 0.0 <= qr[k].score <= 1.0 {
      SubmissionResultsSound(grade, lookup, ta, ta.questionAnswers, qr[k]);
    }
    MeanInUnitRange(qr);
  }

  lemma TestResultsStep(grade: Grade, lookup: Lookup, table: Table, testId: string, answers: seq<TestAnswer>, i: nat)
    requires i < |answers|
    ensures var s := Summary(grade, lookup, table, testId, answers[i]);
      TestResults(grade, lookup, table, testId, answers[..i + 1]) ==
        TestResults(grade, lookup, table, testId, answers[..i]) + (if s.Some? then [s.value] else [])
  {
    assert answers[..i + 1][..i] == answers[..i];
  }

  /**
   * Every test result summarises a submission with at least one graded
   * question: its overall score is the mean of its question scores, its grade
   * the letter of that mean, and, with outcomes in [0, 1], it is valid.
   */
  lemma {:induction false} TestResultsShape(grade: Grade, lookup: Lookup, table: Table, testId: string, answers: seq<TestAnswer>)
    requires ScoresInUnitRange(grade)
    ensures forall t :: t in TestResults(grade, lookup, table, testId, answers) ==>
      t.testId == testId && t.questionResults != []
      && t.overallScore == MeanScore(t.questionResults)
      && t.overallGrade == AssignGrade(t.overallScore, table)
      && t.totalPointsEarned == TotalPoints(t.questionResults)
      && ValidTestGradingResult(t)
  {
    if answers != [] {
      var init := answers[..|answers| - 1];
      TestResultsShape(grade, lookup, table, testId, init);
      var s := Summary(grade, lookup, table, testId, answers[|answers| - 1]);
      if s.Some? {
        SummaryValid(grade, lookup, table, testId, answers[|answers| - 1]);
      }
    }
  }

  lemma RowsOfStep(testId: string, teacherId: string, t: TestGradingResult, qr: seq<GradingResult>, j: nat)
    requires j < |qr|
    ensures RowsOf(testId, teacherId, t, qr[..j + 1]) == RowsOf(testId, teacherId, t, qr[..j]) + [Row(testId, teacherId, t, qr[j])]
  {
    assert qr[..j + 1][..j] == qr[..j];
  }

  lemma SavedRowsStep(testId: string, teacherId: string, results: seq<TestGradingResult>, i: nat)
    requires i < |results|
    ensures SavedRows(testId, teacherId, results[..i + 1]) ==
      SavedRows(testId, teacherId, results[..i]) + RowsOf(testId, teacherId, results[i], results[i].questionResults)
  {
    assert results[..i + 1][..i] == results[..i];
  }

  /** One row is saved per question result, and none when there are no results. */
  lemma {:induction false} SavedRowsCount(testId: string, teacherId: string, results: seq<TestGradingResult>)
    ensures |SavedRows(testId, teacherId, results)| == CountQuestionResults(results)
    ensures results == [] ==> SavedRows(testId, teacherId, results) == []
  {
    if results != [] {
      SavedRowsCount(testId, teacherId, results[..|results| - 1]);
    }
  }

  lemma {:induction false} RowsOfSound(testId: string, teacherId: string, t: TestGradingResult, qr: seq<GradingResult>, row: TestGradeRow)
    requires row in RowsOf(testId, teacherId, t, qr)
    ensures exists g :: g in qr && row == Row(testId, teacherId, t, g)
  {
    var init := qr[..|qr| - 1];
    if row in RowsOf(testId, teacherId, t, init) {
      RowsOfSound(testId, teacherId, t, init, row);
      var g :| g in init && row == Row(testId, teacherId, t, g);
      assert g in qr;
    } else {
      assert row == Row(testId, teacherId, t, qr[|qr| - 1]);
    }
  }

  /** Every saved row is a question result of one summary, carrying that summary's overall score and grade. */
  lemma {:induction false} SavedRowsSound(testId: string, teacherId: string, results: seq<TestGradingResult>, row: TestGradeRow)
    requires row in SavedRows(testId, teacherId, results)
    ensures exists t, g :: t in results && g in t.questionResults && row == Row(testId, teacherId, t, g)
  {
    var init := results[..|results| - 1];
    var last := results[|results| - 1];
    if row in SavedRows(testId, teacherId, init) {
      SavedRowsSound(testId, teacherId, init, row);
      var t, g :| t in init && g in t.questionResults && row == Row(testId, teacherId, t, g);
      assert t in results;
    } else {
      RowsOfSound(testId, teacherId, last, last.questionResults, row);
    }
  }

  // ------------------------------------------------------ test endpoint

  /** `get_question_by_id` and, when the question is found, `grade_answer` on the student's answer to it. */
  method GradeAnswered(store: Store, o: Oracle, table: Table, teacherId: string, ta: TestAnswer, p: (string, string), now: int)
    returns (r: Option<GradingResult>)
    ensures r == Answered(GradeWith(o, table), LookupIn(store.questions, teacherId, now), ta, p)
  {
    var question := store.GetQuestionById(p.0, teacherId, now);
    if question.None? {
      return None;
    }
    var g := GradeOne(o, table, question.value, p.0, ta.courseId, ta.studentName, ta.studentRollNo, p.1);
    return Some(g);
  }

  /** After the first `k` pairs: the question results so far, with their running score list and points total. */
  predicate GradedUpTo(grade: Grade, lookup: Lookup, ta: TestAnswer, pairs: seq<(string, string)>, k: nat,
                       qr: seq<GradingResult>, scores: seq<real>, total: real)
    requires k <= |pairs|
  {
    qr == SubmissionResults(grade, lookup, ta, pairs[..k]) && Accumulated(qr, scores, total)
  }

  lemma GradedStep(grade: Grade, lookup: Lookup, ta: TestAnswer, pairs: seq<(string, string)>, k: nat,
                   qr: seq<GradingResult>, scores: seq<real>, total: real, r: Option<GradingResult>)
    requires k < |pairs| && GradedUpTo(grade, lookup, ta, pairs, k, qr, scores, total)
    requires r == Answered(grade, lookup, ta, pairs[k])
    ensures r.None? ==> GradedUpTo(grade, lookup, ta, pairs, k + 1, qr, scores, total)
    ensures r.Some? ==> GradedUpTo(grade, lookup, ta, pairs, k + 1, qr + [r.value], scores + [r.value.score],
                                   total + r.value.pointsEarned)
  {
    SubmissionResultsStep(grade, lookup, ta, pairs, k);
    if r.Some? {
      AppendResult(qr, scores, total, r.value);
    }
  }

  /** The inner loop of test grading: the found questions of one submission, graded in order. */
  method GradeSubmission(store: Store, o: Oracle, table: Table, teacherId: string, ta: TestAnswer, now: int)
    returns (questionResults: seq<GradingResult>, questionScores: seq<real>, totalPointsEarned: real)
    ensures questionResults == SubmissionResults(GradeWith(o, table), LookupIn(store.questions, teacherId, now), ta, ta.questionAnswers)
    ensures questionScores == Scores(questionResults)
    ensures totalPointsEarned == TotalPoints(questionResults)
  {
    ghost var grade := GradeWith(o, table);
    ghost var lookup := LookupIn(store.questions, teacherId, now);
    var pairs := ta.questionAnswers;
    questionResults, questionScores, totalPointsEarned := [], [], 0.0;
    var k := 0;
    while k < |pairs|
      invariant 0 <= k <= |pairs|
      invariant GradedUpTo(grade, lookup, ta, pairs, k, questionResults, questionScores, totalPointsEarned)
    {
      var r := GradeAnswered(store, o, table, teacherId, ta, pairs[k], now);
      GradedStep(grade, lookup, ta, pairs, k, questionResults, questionScores, totalPointsEarned, r);
      if r.Some? {
        var g := r.value;
        totalPointsEarned := totalPointsEarned + g.pointsEarned;
        questionScores := questionScores + [g.score];
        questionResults := questionResults + [g];
      }
      k := k + 1;
    }
    assert pairs[..k] == pairs;
  }

  /** The rows persisted for the summaries, built by the nested loop over summaries and their question results. */
  method BuildRows(testId: string, teacherId: string, results: seq<TestGradingResult>) returns (rows: seq<TestGradeRow>)
    ensures rows == SavedRows(testId, teacherId, results)
  {
    rows := [];
    var i := 0;
    while i < |results|
      invariant 0 <= i <= |results|
      invariant rows == SavedRows(testId, teacherId, results[..i])
    {
      SavedRowsStep(testId, teacherId, results, i);
      var t := results[i];
      ghost var before := rows;
      var j := 0;
      while j < |t.questionResults|
        invariant 0 <= j <= |t.questionResults|
        invariant rows == before + RowsOf(testId, teacherId, t, t.questionResults[..j])
      {
        RowsOfStep(testId, teacherId, t, t.questionResults, j);
        var g := t.questionResults[j];
        rows := rows + [TestGradeRow(testId, teacherId, t.studentName, t.studentRollNo, g.questionId, g.score, g.grade,
                                     t.overallScore, t.overallGrade, t.courseId)];
        j := j + 1;
      }
      assert t.questionResults[..j] == t.questionResults;
      i := i + 1;
    }
    assert results[..i] == results;
  }

  /**
   * `POST /grade-test/{id}`: 404 unless the teacher owns the test; otherwise
   * the summaries of the given submissions (the test's stored submissions),
   * graded with the teacher's thresholds against the teacher's questions,
   * and the rows saved for them.
   */
  method GradeTest(store: Store, o: Oracle, testId: string, teacher: User, tests: seq<TestDoc>,
                   testAnswers: seq<TestAnswer>, now: int)
    returns (r: Result<seq<TestGradingResult>, ApiError>, saved: seq<TestGradeRow>)
    ensures TestDoc(testId, teacher.id) !in tests ==> r == Err(HttpError(404, "Test not found")) && saved == []
    ensures TestDoc(testId, teacher.id) in tests ==>
      var results := TestResults(GradeWith(o, ThresholdsIn(store.settings, teacher.id)),
                                 LookupIn(store.questions, teacher.id, now),
                                 ThresholdsIn(store.settings, teacher.id), testId, testAnswers);
      r == Ok(results) && saved == SavedRows(testId, teacher.id, results)
  {
    if TestDoc(testId, teacher.id) !in tests {
      return Err(HttpError(404, "Test not found")), [];
    }
    if |testAnswers| == 0 {
      return Ok([]), [];
    }
    var table := store.GetGradeThresholds(teacher.id);
    ghost var grade := GradeWith(o, table);
    ghost var lookup := LookupIn(store.questions, teacher.id, now);
    var results: seq<TestGradingResult> := [];
    var i := 0;
    while i < |testAnswers|
      invariant 0 <= i <= |testAnswers|
      invariant results == TestResults(grade, lookup, table, testId, testAnswers[..i])
    {
      TestResultsStep(grade, lookup, table, testId, testAnswers, i);
      var ta := testAnswers[i];
      var questionResults, questionScores, totalPointsEarned := GradeSubmission(store, o, table, teacher.id, ta, now);
      if |questionScores| > 0 {
        var overallScore := Sum(questionScores) / |questionScores| as real;
        var overallGrade := AssignGrade(overallScore, table);
        results := results + [TestGradingResult(testId, ta.courseId, ta.studentName, ta.studentRollNo,
                                                overallScore, overallGrade, totalPointsEarned, questionResults)];
      }
      i := i + 1;
    }
    assert testAnswers[..i] == testAnswers;
    saved := [];
    if |results| > 0 {
      saved := BuildRows(testId, teacher.id, results);
    }
    return Ok(results), saved;
  }
}
