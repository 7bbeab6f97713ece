/**
 * The request rules of the HTTP handlers: the update payload filter, the
 * role-change guard, who may read a course, and how the store's enrollment
 * errors become HTTP statuses.
 */
module Api {

  import opened Wrappers
  import opened Text
  import opened Documents
  import opened Models
  import opened Errors
  import opened Database

  // ------------------------------------------------------- update payloads

  /**
   * `{k: v for k, v in model.dict().items() if v is not None}`: the present
   * fields, a later entry for the same name overwriting an earlier one.
   */
  function DropNone(fields: seq<(string, Option<Value>)>): (data: map<string, Value>)
    ensures forall i :: 0 <= i < |fields| && fields[i].1.Some? ==> fields[i].0 in data
    ensures forall k :: k in data ==> exists i :: 0 <= i < |fields| && fields[i].0 == k && fields[i].1 == Some(data[k])
  {
    if fields == [] then map[]
    else
      var init := fields[..|fields| - 1];
      var last := fields[|fields| - 1];
      var data := DropNone(init);
      if last.1.Some? then data[last.0 := last.1.value] else data
  }

  const NoUpdateData := "No update data provided"

  /**
   * The profile update handlers up to the write: an update with no field
   * present is refused with 400, one that sets the role is refused with 403
   * unless the current user is an admin; otherwise the data to write.
   */
  function ProfileUpdate(update: UserUpdate, current: User): (r: Result<map<string, Value>, ApiError>)
    ensures r.Ok? ==> r.value == DropNone(UserUpdateFields(update)) && r.value != map[]
  {
    var data := DropNone(UserUpdateFields(update));
    if data == map[] then Err(HttpError(400, NoUpdateData))
    else if "role" in data && current.role != "admin" then Err(HttpError(403, "Only admins can change user roles"))
    else Ok(data)
  }

  /** The role reaches the write exactly when the update sets it. */
  lemma RoleReachesWrite(update: UserUpdate)
    ensures "role" in DropNone(UserUpdateFields(update)) <==> update.role.Some?
  {
    var fields := UserUpdateFields(update);
    var data := DropNone(fields);
    if "role" in data {
      var i :| 0 <= i < |fields| && fields[i].0 == "role" && fields[i].1 == Some(data["role"]);
      assert i == 2;
    }
    assert update.role.Some? ==> fields[2].1.Some?;
  }

  /** The data to write is empty exactly when the update sets no field. */
  lemma EmptyUpdateData(update: UserUpdate)
    ensures DropNone(UserUpdateFields(update)) == map[] <==>
      update.username.None? && update.email.None? && update.role.None? && update.firstName.None? && update.lastName.None?
  {
    var fields := UserUpdateFields(update);
    var data := DropNone(fields);
    if data != map[] {
      var k :| k in data;
      var i :| 0 <= i < |fields| && fields[i].0 == k && fields[i].1 == Some(data[k]);
      assert fields[i].1.Some?;
      assert i == 0 || i == 1 || i == 2 || i == 3 || i == 4;
    } else {
      forall i | 0 <= i < |fields|
        ensures fields[i].1.None?
      {
        assert fields[i].0 !in data;
      }
      assert fields[0].1.None? && fields[1].1.None? && fields[2].1.None? && fields[3].1.None? && fields[4].1.None?;
    }
  }

  /**
   * An empty update is refused with 400 before anything else; a role change
   * by anyone but an admin is refused with 403; every other update passes.
   */
  lemma ProfileUpdateGuards(update: UserUpdate, current: User)
    ensures var none := update.username.None? && update.email.None? && update.role.None?
                        && update.firstName.None? && update.lastName.None?;
      (none ==> ProfileUpdate(update, current) == Err(HttpError(400, NoUpdateData)))
      && (!none && update.role.Some? && current.role != "admin" ==>
            ProfileUpdate(update, current) == Err(HttpError(403, "Only admins can change user roles")))
      && (ProfileUpdate(update, current).Ok? <==> !none && (update.role.None? || current.role == "admin"))
  {
    RoleReachesWrite(update);
    EmptyUpdateData(update);
  }

  // ------------------------------------------------------------- courses

  /**
   * A student may read a course they are enrolled in, a teacher one they
   * own; any other role, admins included, may read every course.
   */
  predicate MayReadCourse(user: User, course: Course) {
    !(user.role == "student" && user.id !in course.studentIds)
    && !(user.role == "teacher" && course.teacherId != user.id)
  }

  /** `GET /courses/{id}`: 404 for a missing course, 403 for a reader without access. */
  function GetCourse(courses: map<string, Course>, courseId: string, user: User): (r: Result<Course, ApiError>)
    ensures courseId !in courses ==> r == Err(HttpError(404, "Course not found"))
    ensures courseId in courses && !MayReadCourse(user, courses[courseId]) ==> r == Err(HttpError(403, "Access denied to this course"))
    ensures r.Ok? <==> courseId in courses && MayReadCourse(user, courses[courseId])
    ensures r.Ok? ==> r.value == courses[courseId]
  {
    if courseId !in courses then Err(HttpError(404, "Course not found"))
    else if !MayReadCourse(user, courses[courseId]) then Err(HttpError(403, "Access denied to this course"))
    else Ok(courses[courseId])
  }

  /** Admins read every course; students exactly those they are enrolled in; teachers exactly those they own. */
  lemma CourseAccessByRole(user: User, course: Course)
    ensures user.role == "admin" ==> MayReadCourse(user, course)
    ensures user.role == "student" ==> (MayReadCourse(user, course) <==> user.id in course.studentIds)
    ensures user.role == "teacher" ==> (MayReadCourse(user, course) <==> course.teacherId == user.id)
  {
  }

  /** `PUT`/`PATCH /courses/{id}`: 400 for an empty update, 404 when no owned course changed. */
  method UpdateCourseHandler(store: Store, courseId: string, teacher: User, update: CourseUpdate, now: int)
    returns (r: Result<string, ApiError>)
    requires store.Valid()
    modifies store
    ensures store.Valid()
    ensures DropNone(CourseUpdateFields(update)) == map[] ==>
      r == Err(HttpError(400, NoUpdateData)) && store.courses == old(store.courses)
    ensures DropNone(CourseUpdateFields(update)) != map[] ==>
      store.courses == (if courseId in old(store.courses) && old(store.courses)[courseId].teacherId == teacher.id
                        then old(store.courses)[courseId := PatchCourse(old(store.courses)[courseId], update, now)]
                        else old(store.courses))
      && (r.Ok? <==> store.courses != old(store.courses))
      && (r.Err? ==> r.error == HttpError(404, "Course not found"))
    ensures store.users == old(store.users) && store.questions == old(store.questions)
    ensures store.settings == old(store.settings)
  {
    var data := DropNone(CourseUpdateFields(update));
    if data == map[] {
      return Err(HttpError(400, NoUpdateData));
    }
    var success := store.UpdateCourse(courseId, teacher.id, update, now);
    if !success {
      return Err(HttpError(404, "Course not found"));
    }
    return Ok("Course updated successfully");
  }

  // ---------------------------------------------------------- enrollment

  /** The status of a failed enrollment: 409 for a duplicate, 400 otherwise. */
  function EnrollErrorStatus(error: string): (status: int)
    ensures status == 409 <==> Contains(error, "already enrolled")
    ensures status == 400 <==> !Contains(error, "already enrolled")
  {
    if Contains(error, "already enrolled") then 409 else 400
  }

  /** The status of a failed unenrollment: 404 when the student was not enrolled, 400 otherwise. */
  function UnenrollErrorStatus(error: string): (status: int)
    ensures status == 404 <==> Contains(error, "not enrolled")
    ensures status == 400 <==> !Contains(error, "not enrolled")
  {
    if Contains(error, "not enrolled") then 404 else 400
  }

  /** The store's duplicate-enrollment message maps to 409. */
  lemma AlreadyEnrolledIs409()
    ensures EnrollErrorStatus(StudentAlreadyEnrolled) == 409
  {
    InfixContained("Student is ", "already enrolled", " in this course");
  }

  /** The store's not-enrolled message maps to 404. */
  lemma NotEnrolledIs404()
    ensures UnenrollErrorStatus(StudentNotEnrolled) == 404
  {
    InfixContained("Student is ", "not enrolled", " in this course");
  }

  /**
   * `POST /courses/{id}/enroll`: 404 for a missing course, 403 for a course
   * of another teacher, then the store's enrollment with its error mapped.
   */
  method EnrollHandler(store: Store, courseId: string, teacher: User, studentId: string)
    returns (r: Result<string, ApiError>)
    requires store.Valid()
    modifies store
    ensures store.Valid()
    ensures courseId !in old(store.courses) ==>
      r == Err(HttpError(404, "Course not found with ID: " + courseId)) && store.courses == old(store.courses)
    ensures courseId in old(store.courses) && old(store.courses)[courseId].teacherId != teacher.id ==>
      r == Err(HttpError(403, "Access denied. Course belongs to another teacher")) && store.courses == old(store.courses)
    ensures courseId in old(store.courses) && old(store.courses)[courseId].teacherId == teacher.id ==>
      if studentId in old(store.courses)[courseId].studentIds
      then r == Err(HttpError(409, StudentAlreadyEnrolled)) && store.courses == old(store.courses)
      else r == Ok("Student enrolled successfully")
           && store.courses == old(store.courses)[courseId := old(store.courses)[courseId].(
                studentIds := old(store.courses)[courseId].studentIds + [studentId])]
    ensures store.users == old(store.users) && store.questions == old(store.questions)
    ensures store.settings == old(store.settings)
  {
    if courseId !in store.courses {
      return Err(HttpError(404, "Course not found with ID: " + courseId));
    }
    if store.courses[courseId].teacherId != teacher.id {
      return Err(HttpError(403, "Access denied. Course belongs to another teacher"));
    }
    var result := store.EnrollStudent(courseId, studentId);
    if result.Err? {
      AlreadyEnrolledIs409();
      return Err(HttpError(EnrollErrorStatus(result.error), result.error));
    }
    return Ok(result.value);
  }

  /**
   * `DELETE /courses/{id}/unenroll/{student}`: 404 for a missing course or
   * one of another teacher, then the store's removal with its error mapped.
   */
  method UnenrollHandler(store: Store, courseId: string, teacher: User, studentId: string)
    returns (r: Result<string, ApiError>)
    requires store.Valid()
    modifies store
    ensures store.Valid()
    ensures courseId !in old(store.courses) || old(store.courses)[courseId].teacherId != teacher.id ==>
      r == Err(HttpError(404, "Course not found")) && store.courses == old(store.courses)
    ensures courseId in old(store.courses) && old(store.courses)[courseId].teacherId == teacher.id ==>
      if studentId !in old(store.courses)[courseId].studentIds
      then r == Err(HttpError(404, StudentNotEnrolled)) && store.courses == old(store.courses)
      else r == Ok("Student removed successfully")
           && store.courses == old(store.courses)[courseId := old(store.courses)[courseId].(
                studentIds := Pull(old(store.courses)[courseId].studentIds, studentId))]
    ensures store.users == old(store.users) && store.questions == old(store.questions)
    ensures store.settings == old(store.settings)
  {
    if courseId !in store.courses || store.courses[courseId].teacherId != teacher.id {
      return Err(HttpError(404, "Course not found"));
    }
    var result := store.RemoveStudent(courseId, studentId);
    if result.Err? {
      NotEnrolledIs404();
      return Err(HttpError(UnenrollErrorStatus(result.error), result.error));
    }
    return Ok(result.value);
  }
}
