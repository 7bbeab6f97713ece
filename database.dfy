/**
 * The MongoDB collections the core touches, held in memory by one `Store`:
 * users and questions as lists of documents in their natural order (a
 * `find_one` returns the first match), courses as a map from course id, and
 * the per-teacher grade-threshold settings as a map from teacher id. The
 * clock and the id generator are parameters; a missing optional field is
 * `None`.
 */
module Database {

  import opened Wrappers
  import opened Models
  import opened GradeScale
  import opened Errors

  // ------------------------------------------------------------- records

  /** A stored user document; every field the normalisation may fill in is optional. */
  datatype UserDoc = UserDoc(oid: string, id: Option<string>, username: string, email: string,
                             role: Option<string>, firstName: Option<string>, lastName: Option<string>,
                             createdAt: Option<int>)

  /** A user as the lookups hand it out. */
  datatype User = User(oid: string, id: string, username: string, email: string, role: string,
                       firstName: string, lastName: string, createdAt: int)

  /** A stored course; a document without `student_ids` reads as an empty list. */
  datatype Course = Course(teacherId: string, base: CourseBase, studentIds: seq<string>,
                           createdAt: int, updatedAt: int)

  /** A stored question document. */
  datatype QuestionDoc = QuestionDoc(oid: string, id: string, teacherId: string, courseId: string,
                                     question: string, sampleAnswer: string, markingScheme: seq<string>,
                                     difficultyLevel: Option<string>, points: Option<int>,
                                     createdAt: Option<int>, updatedAt: Option<int>)

  /** A question as the lookups hand it out. */
  datatype Question = Question(oid: string, id: string, teacherId: string, courseId: string,
                               question: string, sampleAnswer: string, markingScheme: seq<string>,
                               difficultyLevel: string, points: int, createdAt: int, updatedAt: int)

  /** Which field a user lookup filters on. */
  datatype UserKey = ByUsername | ByEmail | ById

  predicate KeyMatches(doc: UserDoc, key: UserKey, value: string) {
    match key
    case ByUsername => doc.username == value
    case ByEmail => doc.email == value
    case ById => doc.id == Some(value)
  }

  // -------------------------------------------------------- normalisation

  /** A name that is missing or empty is replaced by its default. */
  function NameOr(name: Option<string>, default: string): (r: string)
    ensures name.Some? && name.value != "" ==> r == name.value
    ensures name.None? || name.value == "" ==> r == default
  {
    if name.Some? && name.value != "" then name.value else default
  }

  /**
   * The fixes `get_user_by_*` applies to a fetched user: the `_id` text as
   * `id` when there is none, role "student", names "Unknown"/"User" when
   * missing or empty, and the current time as `created_at` when missing.
   */
  function NormalizeUser(doc: UserDoc, now: int): (u: User)
    ensures u.id == (if doc.id.Some? then doc.id.value else doc.oid)
    ensures u.role == (if doc.role.Some? then doc.role.value else "student")
    ensures u.firstName != "" && u.lastName != ""
    ensures doc.firstName.Some? && doc.firstName.value != "" ==> u.firstName == doc.firstName.value
    ensures doc.lastName.Some? && doc.lastName.value != "" ==> u.lastName == doc.lastName.value
    ensures u.createdAt == (if doc.createdAt.Some? then doc.createdAt.value else now)
    ensures u.oid == doc.oid && u.username == doc.username && u.email == doc.email
  {
    User(doc.oid, if doc.id.Some? then doc.id.value else doc.oid, doc.username, doc.email,
         if doc.role.Some? then doc.role.value else "student",
         NameOr(doc.firstName, DefaultFirstName), NameOr(doc.lastName, DefaultLastName),
         if doc.createdAt.Some? then doc.createdAt.value else now)
  }

  /** The document a normalised user is stored as, every field present. */
  function UserToDoc(u: User): UserDoc {
    UserDoc(u.oid, Some(u.id), u.username, u.email, Some(u.role), Some(u.firstName), Some(u.lastName), Some(u.createdAt))
  }

  /** Normalising a user twice, whatever the clock says the second time, changes nothing more. */
  lemma NormalizeUserIdempotent(doc: UserDoc, now: int, later: int)
    ensures NormalizeUser(UserToDoc(NormalizeUser(doc, now)), later) == NormalizeUser(doc, now)
  {
  }

  /** The fixes `get_questions_by_course` applies to a fetched question: difficulty "medium", 10 points, timestamps. */
  function NormalizeQuestion(doc: QuestionDoc, now: int): (q: Question)
    ensures q.difficultyLevel == (if doc.difficultyLevel.Some? then doc.difficultyLevel.value else DefaultDifficulty)
    ensures q.points == (if doc.points.Some? then doc.points.value else DefaultPoints)
    ensures q.createdAt == (if doc.createdAt.Some? then doc.createdAt.value else now)
    ensures q.updatedAt == (if doc.updatedAt.Some? then doc.updatedAt.value else now)
    ensures q.id == doc.id && q.teacherId == doc.teacherId && q.courseId == doc.courseId
    ensures q.sampleAnswer == doc.sampleAnswer && q.markingScheme == doc.markingScheme
  {
    Question(doc.oid, doc.id, doc.teacherId, doc.courseId, doc.question, doc.sampleAnswer, doc.markingScheme,
             Or(doc.difficultyLevel, DefaultDifficulty), Or(doc.points, DefaultPoints),
             Or(doc.createdAt, now), Or(doc.updatedAt, now))
  }

  /** The normalised questions of a course, in collection order. */
  function QuestionsOf(docs: seq<QuestionDoc>, courseId: string, now: int): (qs: seq<Question>)
    ensures |qs| <= |docs|
    ensures forall q :: q in qs ==> q.courseId == courseId
  {
    if docs == [] then []
    else
      var rest := QuestionsOf(docs[..|docs| - 1], courseId, now);
      var last := docs[|docs| - 1];
      if last.courseId == courseId then rest + [NormalizeQuestion(last, now)] else rest
  }

  lemma QuestionsOfStep(docs: seq<QuestionDoc>, courseId: string, now: int, i: nat)
    requires i < |docs|
    ensures QuestionsOf(docs[..i + 1], courseId, now) ==
      QuestionsOf(docs[..i], courseId, now) + (if docs[i].courseId == courseId then [NormalizeQuestion(docs[i], now)] else [])
  {
    assert docs[..i + 1][..i] == docs[..i];
  }

  /** Every listed question is a stored question of the course, normalised. */
  lemma {:induction false} QuestionsOfSound(docs: seq<QuestionDoc>, courseId: string, now: int, q: Question)
    requires q in QuestionsOf(docs, courseId, now)
    ensures exists i :: 0 <= i < |docs| && docs[i].courseId == courseId && q == NormalizeQuestion(docs[i], now)
  {
    var init := docs[..|docs| - 1];
    if q in QuestionsOf(init, courseId, now) {
      QuestionsOfSound(init, courseId, now, q);
      var i :| 0 <= i < |init| && init[i].courseId == courseId && q == NormalizeQuestion(init[i], now);
      assert docs[i] == init[i];
    }
  }

  /** Every stored question of the course is listed. */
  lemma {:induction false} QuestionsOfComplete(docs: seq<QuestionDoc>, courseId: string, now: int, i: nat)
    requires i < |docs| && docs[i].courseId == courseId
    ensures NormalizeQuestion(docs[i], now) in QuestionsOf(docs, courseId, now)
  {
    var init := docs[..|docs| - 1];
    if i < |init| {
      assert init[i] == docs[i];
      QuestionsOfComplete(init, courseId, now, i);
    }
  }

  // -------------------------------------------------------- student lists

  predicate NoDup(s: seq<string>) {
    forall i, j :: 0 <= i < j < |s| ==> s[i] != s[j]
  }

  /** MongoDB's `$addToSet`: append unless already present. */
  function AddToSet(s: seq<string>, x: string): (r: seq<string>)
    ensures x in r && forall y :: y in r <==> y in s || y == x
    ensures NoDup(s) ==> NoDup(r)
  {
    if x in s then s else s + [x]
  }

  /** MongoDB's `$pull`: drop every occurrence, keep the rest in order. */
  function Pull(s: seq<string>, x: string): (r: seq<string>)
    ensures x !in r && forall y :: y in r <==> y in s && y != x
    ensures |r| <= |s|
  {
    if s == [] then []
    else if s[|s| - 1] == x then Pull(s[..|s| - 1], x)
    else Pull(s[..|s| - 1], x) + [s[|s| - 1]]
  }

  lemma {:induction false} PullKeepsNoDup(s: seq<string>, x: string)
    requires NoDup(s)
    ensures NoDup(Pull(s, x))
  {
    if s != [] {
      var init, last := s[..|s| - 1], s[|s| - 1];
      assert NoDup(init);
      PullKeepsNoDup(init, x);
      var r := Pull(init, x);
      assert last !in init;
      if last != x {
        assert last !in r;
        assert Pull(s, x) == r + [last];
        forall i, j | 0 <= i < j < |r + [last]|
          ensures (r + [last])[i] != (r + [last])[j]
        {
          if j == |r| {
            assert (r + [last])[i] == r[i];
          }
        }
      }
    }
  }

  /** Pulling an id that is absent leaves the list as it is. */
  lemma {:induction false} PullAbsent(s: seq<string>, x: string)
    requires x !in s
    ensures Pull(s, x) == s
  {
    if s != [] {
      PullAbsent(s[..|s| - 1], x);
      assert s == s[..|s| - 1] + [s[|s| - 1]];
    }
  }

  /** Enrolling a student who was not enrolled and removing them again restores the list. */
  lemma EnrollThenRemoveRestores(s: seq<string>, x: string)
    requires x !in s
    ensures Pull(AddToSet(s, x), x) == s
  {
    assert (s + [x])[..|s|] == s;
    PullAbsent(s, x);
  }

  // ------------------------------------------------------- grade settings

  /** The table `get_grade_thresholds` falls back to. */
  const DefaultTable: Table := [Entry("A", 85), Entry("B", 70), Entry("C", 55), Entry("D", 40), Entry("F", 0)]

  /**
   * The thresholds stored for a teacher: the saved dictionary, or the
   * default when there is no settings document or it has no thresholds.
   */
  function ThresholdsIn(settings: map<string, Option<Table>>, teacherId: string): (t: Table)
    ensures teacherId !in settings || settings[teacherId].None? ==> t == DefaultTable
    ensures teacherId in settings && settings[teacherId].Some? ==> t == settings[teacherId].value
  {
    if teacherId in settings && settings[teacherId].Some? then settings[teacherId].value else DefaultTable
  }

  /** Saving for one teacher is read back for that teacher and nobody else sees a change. */
  lemma SaveThenRead(settings: map<string, Option<Table>>, teacherId: string, table: Table, other: string)
    ensures ThresholdsIn(settings[teacherId := Some(table)], teacherId) == table
    ensures other != teacherId ==> ThresholdsIn(settings[teacherId := Some(table)], other) == ThresholdsIn(settings, other)
  {
  }

  // ---------------------------------------------------------- owned edits

  /** The course document after `$set` of the update's present fields and `updated_at`. */
  function PatchCourse(c: Course, u: CourseUpdate, now: int): Course {
    var b := c.base;
    c.(base := CourseBase(Or(u.title, b.title), if u.description.Some? then u.description else b.description,
                          Or(u.subject, b.subject), Or(u.academicYear, b.academicYear)),
       updatedAt := now)
  }

  /** The question document after `$set` of the update's present fields and `updated_at`. */
  function PatchQuestion(q: QuestionDoc, u: QuestionUpdate, now: int): QuestionDoc {
    q.(question := Or(u.question, q.question), sampleAnswer := Or(u.sampleAnswer, q.sampleAnswer),
       markingScheme := Or(u.markingScheme, q.markingScheme),
       difficultyLevel := if u.difficultyLevel.Some? then u.difficultyLevel else q.difficultyLevel,
       points := if u.points.Some? then u.points else q.points, updatedAt := Some(now))
  }

  /** The first question with this id and owner, the filter of the owner-scoped question calls. */
  function FirstOwned(qs: seq<QuestionDoc>, questionId: string, teacherId: string): (r: Option<nat>)
    ensures r.Some? ==> r.value < |qs| && qs[r.value].id == questionId && qs[r.value].teacherId == teacherId
    ensures r.Some? ==> forall k :: 0 <= k < r.value ==> !(qs[k].id == questionId && qs[k].teacherId == teacherId)
    ensures r.None? ==> forall k :: 0 <= k < |qs| ==> !(qs[k].id == questionId && qs[k].teacherId == teacherId)
  {
    if qs == [] then None
    else if qs[0].id == questionId && qs[0].teacherId == teacherId then Some(0)
    else
      var rest := FirstOwned(qs[1..], questionId, teacherId);
      if rest.Some? then Some(rest.value + 1) else None
  }

  /** The teacher's question with this id, normalised; nothing when the teacher has no such question. */
  function QuestionById(qs: seq<QuestionDoc>, questionId: string, teacherId: string, now: int): (r: Option<Question>)
    ensures r.Some? <==> exists k :: 0 <= k < |qs| && qs[k].id == questionId && qs[k].teacherId == teacherId
    ensures r.Some? ==> r.value.id == questionId && r.value.teacherId == teacherId
  {
    var i := FirstOwned(qs, questionId, teacherId);
    if i.Some? then Some(NormalizeQuestion(qs[i.value], now)) else None
  }

  /** The first user document the lookup filter selects. */
  function FirstUser(docs: seq<UserDoc>, key: UserKey, value: string): (r: Option<nat>)
    ensures r.Some? ==> r.value < |docs| && KeyMatches(docs[r.value], key, value)
    ensures r.Some? ==> forall k :: 0 <= k < r.value ==> !KeyMatches(docs[k], key, value)
    ensures r.None? ==> forall k :: 0 <= k < |docs| ==> !KeyMatches(docs[k], key, value)
  {
    if docs == [] then None
    else if KeyMatches(docs[0], key, value) then Some(0)
    else
      var rest := FirstUser(docs[1..], key, value);
      if rest.Some? then Some(rest.value + 1) else None
  }

  // --------------------------------------------------------------- store

  class Store {
    var users: seq<UserDoc>
    var courses: map<string, Course>
    var questions: seq<QuestionDoc>
    var settings: map<string, Option<Table>>

    /** Every course's student list is free of duplicates. */
    ghost predicate Valid()
      reads this
    {
      forall id :: id in courses ==> NoDup(courses[id].studentIds)
    }

    constructor()
      ensures Valid()
      ensures users == [] && courses == map[] && questions == [] && settings == map[]
    {
      users := [];
      courses := map[];
      questions := [];
      settings := map[];
    }

    /** `get_user_by_username`, `get_user_by_email`, `get_user_by_id`: the first match, normalised. */
    method GetUser(key: UserKey, value: string, now: int) returns (u: Option<User>)
      ensures u.None? <==> forall k :: 0 <= k < |users| ==> !KeyMatches(users[k], key, value)
      ensures u.Some? ==> FirstUser(users, key, value).Some? && u.value == NormalizeUser(users[FirstUser(users, key, value).value], now)
    {
      var i := 0;
      while i < |users|
        invariant 0 <= i <= |users|
        invariant forall k :: 0 <= k < i ==> !KeyMatches(users[k], key, value)
      {
        if KeyMatches(users[i], key, value) {
          FirstUserIsFirst(users, key, value, i);
          return Some(NormalizeUser(users[i], now));
        }
        i := i + 1;
      }
      return None;
    }

    /** `enroll_student_in_course`: the "Failed to enroll" branch cannot be reached without a concurrent writer. */
    method EnrollStudent(courseId: string, studentId: string) returns (r: Result<string, string>)
      requires Valid()
      modifies this
      ensures Valid()
      ensures courseId !in old(courses) ==> r == Err("Course not found") && courses == old(courses)
      ensures courseId in old(courses) && studentId in old(courses)[courseId].studentIds ==>
                r == Err(StudentAlreadyEnrolled) && courses == old(courses)
      ensures courseId in old(courses) && studentId !in old(courses)[courseId].studentIds ==>
                r == Ok("Student enrolled successfully")
                && courses == old(courses)[courseId := old(courses)[courseId].(studentIds := old(courses)[courseId].studentIds + [studentId])]
      ensures users == old(users) && questions == old(questions) && settings == old(settings)
    {
      if courseId !in courses {
        return Err("Course not found");
      }
      var course := courses[courseId];
      if studentId in course.studentIds {
        return Err(StudentAlreadyEnrolled);
      }
      courses := courses[courseId := course.(studentIds := AddToSet(course.studentIds, studentId))];
      return Ok("Student enrolled successfully");
    }

    /** `remove_student_from_course`: every occurrence of the id is pulled. */
    method RemoveStudent(courseId: string, studentId: string) returns (r: Result<string, string>)
      requires Valid()
      modifies this
      ensures Valid()
      ensures courseId !in old(courses) ==> r == Err("Course not found") && courses == old(courses)
      ensures courseId in old(courses) && studentId !in old(courses)[courseId].studentIds ==>
                r == Err(StudentNotEnrolled) && courses == old(courses)
      ensures courseId in old(courses) && studentId in old(courses)[courseId].studentIds ==>
                r == Ok("Student removed successfully")
                && courses == old(courses)[courseId := old(courses)[courseId].(studentIds := Pull(old(courses)[courseId].studentIds, studentId))]
      ensures users == old(users) && questions == old(questions) && settings == old(settings)
    {
      if courseId !in courses {
        return Err("Course not found");
      }
      var course := courses[courseId];
      if studentId !in course.studentIds {
        return Err(StudentNotEnrolled);
      }
      PullKeepsNoDup(course.studentIds, studentId);
      courses := courses[courseId := course.(studentIds := Pull(course.studentIds, studentId))];
      return Ok("Student removed successfully");
    }

    /** `db_save_course`: the new course gets the fresh id and no students. */
    method SaveCourse(teacherId: string, base: CourseBase, freshId: string, now: int) returns (id: string)
      requires Valid() && freshId !in courses
      modifies this
      ensures Valid()
      ensures id == freshId && courses == old(courses)[id := Course(teacherId, base, [], now, now)]
      ensures users == old(users) && questions == old(questions) && settings == old(settings)
    {
      id := freshId;
      courses := courses[id := Course(teacherId, base, [], now, now)];
    }

    /** `db_update_course`: only the course with this id and owner is patched; true iff it changed. */
    method UpdateCourse(courseId: string, teacherId: string, update: CourseUpdate, now: int) returns (modified: bool)
      requires Valid()
      modifies this
      ensures Valid()
      ensures courses == if courseId in old(courses) && old(courses)[courseId].teacherId == teacherId
                         then old(courses)[courseId := PatchCourse(old(courses)[courseId], update, now)]
                         else old(courses)
      ensures modified <==> courses != old(courses)
      ensures users == old(users) && questions == old(questions) && settings == old(settings)
    {
      modified := false;
      if courseId in courses && courses[courseId].teacherId == teacherId {
        var patched := PatchCourse(courses[courseId], update, now);
        modified := patched != courses[courseId];
        if !modified {
          assert courses[courseId := patched] == courses;
        } else {
          assert courses[courseId := patched][courseId] != courses[courseId];
        }
        courses := courses[courseId := patched];
      }
    }

    /** `db_delete_course`: only the course with this id and owner is removed; true iff there was one. */
    method DeleteCourse(courseId: string, teacherId: string) returns (deleted: bool)
      requires Valid()
      modifies this
      ensures Valid()
      ensures deleted <==> courseId in old(courses) && old(courses)[courseId].teacherId == teacherId
      ensures courses == if deleted then old(courses) - {courseId} else old(courses)
      ensures users == old(users) && questions == old(questions) && settings == old(settings)
    {
      deleted := courseId in courses && courses[courseId].teacherId == teacherId;
      if deleted {
        courses := courses - {courseId};
      }
    }

    /** The scan behind the owner-scoped question calls. */
    method FindOwnedQuestion(questionId: string, teacherId: string) returns (r: Option<nat>)
      ensures r == FirstOwned(questions, questionId, teacherId)
    {
      var i := 0;
      while i < |questions|
        invariant 0 <= i <= |questions|
        invariant forall k :: 0 <= k < i ==> !(questions[k].id == questionId && questions[k].teacherId == teacherId)
      {
        if questions[i].id == questionId && questions[i].teacherId == teacherId {
          FirstOwnedIsFirst(questions, questionId, teacherId, i);
          return Some(i);
        }
        i := i + 1;
      }
      FirstOwnedNone(questions, questionId, teacherId);
      return None;
    }

    /** `db_update_question`: only the first question with this id and owner is patched; true iff it changed. */
    method UpdateQuestion(questionId: string, teacherId: string, update: QuestionUpdate, now: int) returns (modified: bool)
      requires Valid()
      modifies this
      ensures Valid()
      ensures var i := FirstOwned(old(questions), questionId, teacherId);
        questions == if i.Some? then old(questions)[i.value := PatchQuestion(old(questions)[i.value], update, now)]
                     else old(questions)
      ensures modified <==> questions != old(questions)
      ensures users == old(users) && courses == old(courses) && settings == old(settings)
    {
      var i := FindOwnedQuestion(questionId, teacherId);
      modified := false;
      if i.Some? {
        var patched := PatchQuestion(questions[i.value], update, now);
        modified := patched != questions[i.value];
        if !modified {
          assert questions[i.value := patched] == questions;
        } else {
          assert questions[i.value := patched][i.value] != questions[i.value];
        }
        questions := questions[i.value := patched];
      }
    }

    /** `db_delete_question`: only the first question with this id and owner is removed; true iff there was one. */
    method DeleteQuestion(questionId: string, teacherId: string) returns (deleted: bool)
      requires Valid()
      modifies this
      ensures Valid()
      ensures var i := FirstOwned(old(questions), questionId, teacherId);
        deleted == i.Some? &&
        questions == if i.Some? then old(questions)[..i.value] + old(questions)[i.value + 1..] else old(questions)
      ensures users == old(users) && courses == old(courses) && settings == old(settings)
    {
      var i := FindOwnedQuestion(questionId, teacherId);
      deleted := i.Some?;
      if i.Some? {
        questions := questions[..i.value] + questions[i.value + 1..];
      }
    }

    /** `get_questions_by_course`: the course's questions in collection order, each normalised. */
    method GetQuestionsByCourse(courseId: string, now: int) returns (qs: seq<Question>)
      ensures qs == QuestionsOf(questions, courseId, now)
    {
      qs := [];
      var i := 0;
      while i < |questions|
        invariant 0 <= i <= |questions|
        invariant qs == QuestionsOf(questions[..i], courseId, now)
      {
        QuestionsOfStep(questions, courseId, now, i);
        if questions[i].courseId == courseId {
          qs := qs + [NormalizeQuestion(questions[i], now)];
        }
        i := i + 1;
      }
      assert questions[..i] == questions;
    }

    /** `get_question_by_id`: the first question with this id and owner, normalised. */
    method GetQuestionById(questionId: string, teacherId: string, now: int) returns (q: Option<Question>)
      ensures q == QuestionById(questions, questionId, teacherId, now)
    {
      var i := FindOwnedQuestion(questionId, teacherId);
      if i.None? {
        return None;
      }
      return Some(NormalizeQuestion(questions[i.value], now));
    }

    /** `get_grade_thresholds`. */
    method GetGradeThresholds(teacherId: string) returns (t: Table)
      ensures t == ThresholdsIn(settings, teacherId)
    {
      if teacherId in settings {
        var doc := settings[teacherId];
        if doc.Some? {
          return doc.value;
        }
        return DefaultTable;
      }
      return DefaultTable;
    }

    /** `save_grade_thresholds`: an upsert of the teacher's settings document. */
    method SaveGradeThresholds(teacherId: string, table: Table) returns (ok: bool)
      requires Valid()
      modifies this
      ensures Valid()
      ensures ok && settings == old(settings)[teacherId := Some(table)]
      ensures ThresholdsIn(settings, teacherId) == table
      ensures users == old(users) && courses == old(courses) && questions == old(questions)
    {
      settings := settings[teacherId := Some(table)];
      return true;
    }
  }

  lemma FirstOwnedIsFirst(qs: seq<QuestionDoc>, questionId: string, teacherId: string, i: nat)
    requires i < |qs| && qs[i].id == questionId && qs[i].teacherId == teacherId
    requires forall k :: 0 <= k < i ==> !(qs[k].id == questionId && qs[k].teacherId == teacherId)
    ensures FirstOwned(qs, questionId, teacherId) == Some(i)
  {
    var r := FirstOwned(qs, questionId, teacherId);
    assert r.Some?;
  }

  lemma FirstOwnedNone(qs: seq<QuestionDoc>, questionId: string, teacherId: string)
    requires forall k :: 0 <= k < |qs| ==> !(qs[k].id == questionId && qs[k].teacherId == teacherId)
    ensures FirstOwned(qs, questionId, teacherId) == None
  {
  }

  lemma FirstUserIsFirst(docs: seq<UserDoc>, key: UserKey, value: string, i: nat)
    requires i < |docs| && KeyMatches(docs[i], key, value)
    requires forall k :: 0 <= k < i ==> !KeyMatches(docs[k], key, value)
    ensures FirstUser(docs, key, value) == Some(i)
  {
    var r := FirstUser(docs, key, value);
    assert r.Some?;
  }
}
