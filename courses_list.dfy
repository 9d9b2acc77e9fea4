/** The admin course list (app/admin/courses/hooks/useCoursesList.ts): the
    courses on screen, a loading flag and an error text, refreshed from
    `getCourses` and trimmed locally after a successful `deleteCourse`. */
module CoursesList {
  import opened JsValues
  import opened CourseSchemas
  import opened CourseQueries
  import opened CourseService

  /** How an awaited service call ended: it returned an envelope, or it threw. */
  datatype Call<T> = Returned(envelope: Envelope<T>) | Threw

  const LoadFailedMsg := "Не удалось загрузить курсы"
  const DeleteFailedMsg := "Не удалось удалить курс"
  const UnexpectedMsg := "Произошла непредвиденная ошибка"
  const UnexpectedDeleteMsg := "Произошла непредвиденная ошибка при удалении"

  /** `error || fallback`: an absent or empty error text gives the fallback. */
  function ErrorOr(error: Option<string>, fallback: string): (r: string)
    ensures error.Some? && error.value != "" ==> r == error.value
    ensures error.None? || error == Some("") ==> r == fallback
  {
    if error.Some? && error.value != "" then error.value else fallback
  }

  /** The local removal after a successful delete (the same filter the
      table applies) drops exactly the copies with that id. */
  lemma WithoutIdCounts(courses: seq<Course>, id: string, c: Course)
    ensures multiset(WithoutId(courses, id))[c] == if c.id == id then 0 else multiset(courses)[c]
  {
    FilterCount(courses, (x: Course) => x.id != id, c);
  }

  /** A list fetched from the table and then trimmed after a successful
      delete holds the same courses as the table after that delete: the
      screen stays in step with the table without a refetch. */
  lemma DeleteKeepsListInStep(rows: seq<Course>, id: string)
    ensures GetCoursesResult(rows).data.Some?
    ensures multiset(WithoutId(GetCoursesResult(rows).data.value, id)) ==
            multiset(DeleteCourseStep(rows, id).rows)
  {
    var shown := GetCoursesResult(rows).data.value;
    var after := DeleteCourseStep(rows, id).rows;
    assert after == WithoutId(rows, id);
    forall c: Course
      ensures multiset(WithoutId(shown, id))[c] == multiset(after)[c]
    {
      WithoutIdCounts(shown, id, c);
      WithoutIdCounts(rows, id, c);
    }
  }

  /** The hook's state. */
  class CoursesListState {
    var courses: seq<Course>
    var isLoading: bool
    var error: Option<string>

    constructor ()
      ensures courses == [] && isLoading && error.None?
    {
      courses := [];
      isLoading := true;
      error := None;
    }

    /** fetchCourses: a successful envelope with data replaces the list;
        a failure keeps it and sets the error; loading ends either way. */
    method FetchCourses(call: Call<seq<Course>>)
      modifies this
      ensures !isLoading
      ensures call.Returned? && call.envelope.success && call.envelope.data.Some? ==>
                courses == call.envelope.data.value && error.None?
      ensures call.Returned? && !(call.envelope.success && call.envelope.data.Some?) ==>
                courses == old(courses) && error == Some(ErrorOr(call.envelope.error, LoadFailedMsg))
      ensures call.Threw? ==> courses == old(courses) && error == Some(UnexpectedMsg)
    {
      isLoading := true;
      error := None;
      match call {
        case Returned(result) =>
          if result.success && result.data.Some? {
            courses := result.data.value;
          } else {
            error := Some(ErrorOr(result.error, LoadFailedMsg));
          }
        case Threw =>
          error := Some(UnexpectedMsg);
      }
      isLoading := false;
    }

    /** deleteCourse: on success the course leaves the list; on failure the
        list stays and the error is set. */
    method DeleteCourse(courseId: string, call: Call<()>) returns (ok: bool)
      modifies this
      ensures ok <==> call.Returned? && call.envelope.success
      ensures ok ==> courses == WithoutId(old(courses), courseId) && error == old(error)
      ensures call.Returned? && !ok ==>
                courses == old(courses) && error == Some(ErrorOr(call.envelope.error, DeleteFailedMsg))
      ensures call.Threw? ==> courses == old(courses) && error == Some(UnexpectedDeleteMsg)
      ensures isLoading == old(isLoading)
    {
      match call
      case Returned(result) =>
        if result.success {
          courses := WithoutId(courses, courseId);
          return true;
        } else {
          error := Some(ErrorOr(result.error, DeleteFailedMsg));
          return false;
        }
      case Threw =>
        error := Some(UnexpectedDeleteMsg);
        return false;
    }
  }
}
