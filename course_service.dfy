/** The course service (lib/services/course/CourseService.ts): validates
    the input, checks the slug in advance, calls the table, and wraps every
    answer in an `{ data, error, success }` envelope.

    Each operation is a pure step from the table's rows to an envelope and
    the rows after it; the `CourseService` class runs the same steps
    against a shared `CourseTable` and is proved to agree with them. */
module CourseService {
  import opened JsValues
  import opened CourseSchemas
  import opened CourseValidators
  import opened CourseQueries

  // ---------------------------------------------------------------------
  // Envelopes (`ApiResponse<T>`)

  datatype Envelope<T> = Envelope(data: Option<T>, error: Option<string>, success: bool) {
    /** What every envelope the service builds satisfies: it succeeded
        exactly when it carries no error, and a failure carries no data. */
    predicate WellFormed() {
      (success <==> error.None?) && (!success ==> data.None?)
    }
  }

  /** createSuccessResponse. */
  function SuccessResponse<T>(data: Option<T>): (e: Envelope<T>)
    ensures e.WellFormed() && e.success && e.data == data
  {
    Envelope(data, None, true)
  }

  /** createErrorResponse. */
  function ErrorResponse<T>(error: string): (e: Envelope<T>)
    ensures e.WellFormed() && !e.success && e.error == Some(error)
  {
    Envelope(None, Some(error), false)
  }

  /** What a `catch` receives: an `Error` instance (with its message) or any
      other thrown value. */
  datatype Thrown = ErrorInstance(message: string) | OtherValue

  const UnknownErrorMsg := "Unknown error"

  /** createUnexpectedErrorResponse. */
  function UnexpectedErrorResponse<T>(thrown: Thrown): (e: Envelope<T>)
    ensures e.WellFormed() && !e.success
    ensures thrown.ErrorInstance? ==> e.error == Some(thrown.message)
    ensures thrown.OtherValue? ==> e.error == Some(UnknownErrorMsg)
  {
    ErrorResponse(if thrown.ErrorInstance? then thrown.message else UnknownErrorMsg)
  }

  /** A listing answer: the backend's message on error, else the rows
      (`data || []`). */
  function ListEnvelope(r: Response<seq<Course>>): (e: Envelope<seq<Course>>)
    ensures e.WellFormed()
    ensures r.error.Some? ==> e == ErrorResponse(r.error.value.message)
    ensures r.error.None? ==> e.success && e.data == Some(r.data.GetOr([]))
  {
    if r.error.Some? then ErrorResponse(r.error.value.message)
    else SuccessResponse(Some(r.data.GetOr([])))
  }

  /** A single-row answer: the backend's message on error, else its data. */
  function RowEnvelope<T>(r: Response<T>): (e: Envelope<T>)
    ensures e.WellFormed()
    ensures r.error.Some? ==> e == ErrorResponse(r.error.value.message)
    ensures r.error.None? ==> e.success && e.data == r.data
  {
    if r.error.Some? then ErrorResponse(r.error.value.message) else SuccessResponse(r.data)
  }

  /** A write answer: the error message from `generateErrorMessage` on error,
      else the written row. */
  function WriteEnvelope(operation: string, r: Response<Course>): (e: Envelope<Course>)
    ensures e.WellFormed()
    ensures r.error.Some? ==> e == ErrorResponse(GenerateErrorMessage(operation, r.error.value))
    ensures r.error.None? ==> e.success && e.data == r.data
  {
    if r.error.Some? then ErrorResponse(GenerateErrorMessage(operation, r.error.value))
    else SuccessResponse(r.data)
  }

  const CreatingOp := "создании"
  const UpdatingOp := "обновлении"

  // ---------------------------------------------------------------------
  // The operations as steps over the rows

  datatype Outcome<T> = Outcome(envelope: Envelope<T>, rows: seq<Course>)

  /** getCourses. */
  function GetCoursesResult(rows: seq<Course>): (e: Envelope<seq<Course>>)
    ensures e.success && e.data.Some?
    ensures SortedBy(NewestFirst, e.data.value) && multiset(e.data.value) == multiset(rows)
  {
    ListEnvelope(SelectAllResult(rows))
  }

  /** getPublishedCourses. */
  function GetPublishedCoursesResult(rows: seq<Course>): (e: Envelope<seq<Course>>)
    ensures e.success && e.data.Some?
    ensures SortedBy(PublishedOrder, e.data.value)
    ensures forall c :: c in e.data.value <==> c in rows && c.isPublished
  {
    var r := SelectPublishedResult(rows);
    assert forall c :: c in r.data.value <==> c in rows && c.isPublished by {
      forall c ensures c in r.data.value <==> c in rows && c.isPublished {
        PublishedListingMembers(rows, c);
      }
    }
    ListEnvelope(r)
  }

  /** getCourseById. */
  function GetCourseByIdResult(rows: seq<Course>, id: string): (e: Envelope<Course>)
    ensures e.WellFormed()
    ensures e.success ==> e.data.Some? && e.data.value in rows && e.data.value.id == id
    ensures !e.success ==> e.error == Some(NotSingleError.message)
    ensures UniqueIds(rows) ==> (e.success <==> IdTaken(rows, id))
  {
    RowEnvelope(SelectByIdResult(rows, id))
  }

  /** getCourseBySlug. */
  function GetCourseBySlugResult(rows: seq<Course>, slug: string): (e: Envelope<Course>)
    ensures e.WellFormed()
    ensures e.success ==> e.data.Some? && e.data.value in rows && e.data.value.slug == slug
    ensures !e.success ==> e.error == Some(NotSingleError.message)
    ensures UniqueSlugs(rows) ==> (e.success <==> SlugTaken(rows, slug))
  {
    RowEnvelope(SelectBySlugResult(rows, slug))
  }

  /** The create path's advance check: the slug lookup found a course. */
  predicate SlugInUse(rows: seq<Course>, slug: string) {
    var check := GetCourseBySlugResult(rows, slug);
    check.success && check.data.Some?
  }

  /** The update path's advance check: the slug lookup found a course with
      another id. */
  predicate SlugInUseByOther(rows: seq<Course>, slug: string, id: string) {
    var check := GetCourseBySlugResult(rows, slug);
    check.success && check.data.Some? && check.data.value.id != id
  }

  /** createCourse: validate, refuse a slug already in use, insert. */
  function CreateCourseStep(rows: seq<Course>, raw: Json, newId: string, now: nat): (o: Outcome<Course>)
    ensures o.envelope.WellFormed()
    ensures !o.envelope.success ==> o.rows == rows
    ensures !RulesHold(CreateMode, raw) ==>
              o.envelope.error == Some(AggregateMessage(SchemaIssues(CreateMode, raw)))
    ensures UniqueIds(rows) && UniqueSlugs(rows) ==> UniqueIds(o.rows) && UniqueSlugs(o.rows)
  {
    var validation := ValidateCreateData(raw);
    if !validation.success then Outcome(ErrorResponse(validation.error.value), rows)
    else
      var input := validation.data.value;
      if SlugInUse(rows, input.slug) then Outcome(ErrorResponse(SlugUniqueMsg), rows)
      else
        var inserted := InsertStep(rows, input, newId, now);
        Outcome(WriteEnvelope(CreatingOp, inserted.response), inserted.rows)
  }

  /** updateCourse: validate, refuse a (non-empty) slug another course
      holds, update the row with the payload's id. */
  function UpdateCourseStep(rows: seq<Course>, raw: Json, now: nat): (o: Outcome<Course>)
    ensures o.envelope.WellFormed()
    ensures !o.envelope.success ==> o.rows == rows
    ensures !RulesHold(UpdateMode, raw) ==>
              o.envelope.error == Some(AggregateMessage(SchemaIssues(UpdateMode, raw)))
  {
    var validation := ValidateUpdateData(raw);
    if !validation.success then Outcome(ErrorResponse(validation.error.value), rows)
    else
      var u := validation.data.value;
      if u.slug.Some? && u.slug.value != "" && SlugInUseByOther(rows, u.slug.value, u.id) then
        Outcome(ErrorResponse(SlugUniqueMsg), rows)
      else
        var updated := UpdateStep(rows, u.id, u, now);
        Outcome(WriteEnvelope(UpdatingOp, updated.response), updated.rows)
  }

  /** deleteCourse: success with no data; the rows without that id. */
  function DeleteCourseStep(rows: seq<Course>, id: string): (o: Outcome<()>)
    ensures o.envelope.WellFormed() && o.envelope.success && o.envelope.data.None?
    ensures forall i :: 0 <= i < |o.rows| ==> o.rows[i].id != id && o.rows[i] in rows
    ensures forall i :: 0 <= i < |rows| && rows[i].id != id ==> rows[i] in o.rows
  {
    var deleted := DeleteStep(rows, id);
    Outcome(RowEnvelope(deleted.response), deleted.rows)
  }

  /** toggleCoursePublish. */
  function ToggleCoursePublishStep(rows: seq<Course>, id: string, isPublished: bool, now: nat): (o: Outcome<Course>)
    ensures o.envelope.WellFormed()
    ensures !o.envelope.success ==> o.rows == rows && o.envelope.error == Some(NotSingleError.message)
    ensures o.envelope.success ==>
              o.envelope.data.Some? && o.envelope.data.value.id == id &&
              o.envelope.data.value.isPublished == isPublished
    ensures o.envelope.success ==>
              o.rows == PublishWhereId(rows, id, isPublished, now) &&
              exists k :: 0 <= k < |rows| && rows[k].id == id &&
                o.envelope.data.value == o.rows[k] &&
                o.envelope.data.value == rows[k].(isPublished := isPublished, updatedAt := now)
  {
    var toggled := TogglePublishStep(rows, id, isPublished, now);
    Outcome(RowEnvelope(toggled.response), toggled.rows)
  }

  // ---------------------------------------------------------------------
  // Properties

  /** Looking a slug up in an empty table fails with the single-row error:
      the lookup never blocks a create by failing. */
  lemma EmptyTableSlugLookup(slug: string)
    ensures GetCourseBySlugResult([], slug) == ErrorResponse(NotSingleError.message)
    ensures !SlugInUse([], slug)
  {
  }

  /** Under unique slugs, the create path's advance check finds a course
      exactly when the slug is taken. */
  lemma SlugInUseExact(rows: seq<Course>, slug: string)
    requires UniqueSlugs(rows)
    ensures SlugInUse(rows, slug) <==> SlugTaken(rows, slug)
  {
  }

  /** Under unique slugs, the update path's advance check fires exactly when
      a row with another id holds the slug; a course's own slug is no
      conflict. */
  lemma SlugInUseByOtherExact(rows: seq<Course>, slug: string, id: string)
    requires UniqueSlugs(rows)
    ensures SlugInUseByOther(rows, slug, id) <==> SlugHeldByOther(rows, slug, id)
  {
    var check := GetCourseBySlugResult(rows, slug);
    if SlugHeldByOther(rows, slug, id) {
      var i :| 0 <= i < |rows| && rows[i].slug == slug && rows[i].id != id;
      assert SlugTaken(rows, slug);
      var j :| 0 <= j < |rows| && rows[j] == check.data.value;
      assert i == j;
    }
  }

  /** createCourse, case by case, on a table that keeps its constraints:
      invalid input reports the aggregated issues; a slug in use reports
      the uniqueness message; an id in use reports it too (the backend's
      23505 is mapped to the same message); otherwise one row is appended
      with `order_index` 0 and returned. Nothing changes unless it
      succeeds. */
  lemma CreateCourseOutcome(rows: seq<Course>, raw: Json, newId: string, now: nat)
    requires UniqueIds(rows) && UniqueSlugs(rows)
    requires RulesHold(CreateMode, raw)
    ensures var input := ParseCreate(raw).value;
            var o := CreateCourseStep(rows, raw, newId, now);
            && (o.envelope.success <==> !SlugTaken(rows, input.slug) && !IdTaken(rows, newId))
            && (SlugTaken(rows, input.slug) || IdTaken(rows, newId) ==>
                  o.envelope.error == Some(SlugUniqueMsg) && o.rows == rows)
            && (o.envelope.success ==>
                  o.rows == rows + [NewRow(input, newId, now)] &&
                  o.envelope.data == Some(NewRow(input, newId, now)) &&
                  o.envelope.data.value.orderIndex == 0)
  {
    var input := ParseCreate(raw).value;
    SlugInUseExact(rows, input.slug);
    var s := InsertStep(rows, input, newId, now);
    if s.response.error.None? {
      assert s.rows == s.rows[..|rows|] + [s.rows[|rows|]];
    }
  }

  /** A course that was created can be fetched by its new id: the lookup
      returns the stored row, with the input's fields, the new id and
      `order_index` 0. */
  lemma CreateThenGetById(rows: seq<Course>, raw: Json, newId: string, now: nat)
    requires UniqueIds(rows) && UniqueSlugs(rows) && RulesHold(CreateMode, raw)
    requires CreateCourseStep(rows, raw, newId, now).envelope.success
    ensures var input := ParseCreate(raw).value;
            var fetched := GetCourseByIdResult(CreateCourseStep(rows, raw, newId, now).rows, newId);
            && fetched == SuccessResponse(Some(NewRow(input, newId, now)))
            && fetched.data.value.id == newId && fetched.data.value.orderIndex == 0
            && fetched.data.value.title == input.title && fetched.data.value.slug == input.slug
            && fetched.data.value.level == input.level && fetched.data.value.isPublished == input.isPublished
  {
    var input := ParseCreate(raw).value;
    var after := CreateCourseStep(rows, raw, newId, now).rows;
    CreateCourseOutcome(rows, raw, newId, now);
    assert after == rows + [NewRow(input, newId, now)];
    assert after[|rows|].id == newId;
    WithIdIsThatRow(after, newId, |rows|);
  }

  /** Keys outside the schema, `order_index` among them, are dropped: the
      create path does the same whatever the input says about them. */
  lemma CreateIgnoresOrderIndex(rows: seq<Course>, o: map<string, Json>, v: Json, newId: string, now: nat)
    ensures CreateCourseStep(rows, JObject(o["order_index" := v]), newId, now) ==
            CreateCourseStep(rows, JObject(o), newId, now)
  {
    ParseCreateIgnoresKey(o, "order_index", v);
  }

  /** updateCourse, case by case, on a table that keeps its constraints:
      a slug another course holds is refused with the uniqueness message; a
      missing row reports the single-row error; otherwise the row with the
      payload's id is merged with the payload. Nothing changes unless it
      succeeds. */
  lemma UpdateCourseOutcome(rows: seq<Course>, raw: Json, now: nat)
    requires UniqueIds(rows) && UniqueSlugs(rows)
    requires RulesHold(UpdateMode, raw)
    ensures var u := ParseUpdate(raw).value;
            var conflict := u.slug.Some? && SlugHeldByOther(rows, u.slug.value, u.id);
            var o := UpdateCourseStep(rows, raw, now);
            && (o.envelope.success <==> IdTaken(rows, u.id) && !conflict)
            && (conflict ==> o.envelope.error == Some(SlugUniqueMsg))
            && (!conflict && !IdTaken(rows, u.id) ==> o.envelope.error == Some(NotSingleError.message))
            && (o.envelope.success ==> o.rows == MergeWhereId(rows, u.id, u, now))
  {
    var u := ParseUpdate(raw).value;
    if u.slug.Some? {
      SlugInUseByOtherExact(rows, u.slug.value, u.id);
    }
    UpdateStepOutcome(rows, u.id, u, now);
  }

  /** Saving a course with its own slug, unchanged, is not refused by the
      advance check: it succeeds when the row exists. */
  lemma UpdateKeepingOwnSlug(rows: seq<Course>, raw: Json, now: nat, k: nat)
    requires UniqueIds(rows) && UniqueSlugs(rows)
    requires RulesHold(UpdateMode, raw)
    requires k < |rows| && rows[k].id == ParseUpdate(raw).value.id
    requires ParseUpdate(raw).value.slug == Some(rows[k].slug)
    ensures UpdateCourseStep(rows, raw, now).envelope.success
  {
    var u := ParseUpdate(raw).value;
    UpdateCourseOutcome(rows, raw, now);
    forall i | 0 <= i < |rows| && rows[i].slug == rows[k].slug ensures rows[i].id == u.id {
    }
  }

  /** Every service write keeps the table's unique constraints. */
  lemma UpdateCourseKeepsConstraints(rows: seq<Course>, raw: Json, now: nat)
    requires UniqueIds(rows) && UniqueSlugs(rows)
    ensures UniqueIds(UpdateCourseStep(rows, raw, now).rows)
    ensures UniqueSlugs(UpdateCourseStep(rows, raw, now).rows)
  {
    if RulesHold(UpdateMode, raw) {
      var u := ParseUpdate(raw).value;
      UpdateStepKeepsConstraints(rows, u.id, u, now);
    }
  }

  /** All rows satisfy the stored-course schema. */
  predicate AllStored(rows: seq<Course>) {
    forall i :: 0 <= i < |rows| ==> StoredCourseOk(rows[i])
  }

  /** Creating a course with a UUID, or updating one, keeps every row within
      the stored-course schema. */
  lemma CreateCourseKeepsStored(rows: seq<Course>, raw: Json, newId: string, now: nat)
    requires AllStored(rows) && IsUuid(newId)
    ensures AllStored(CreateCourseStep(rows, raw, newId, now).rows)
  {
    var validation := ValidateCreateData(raw);
    if validation.success && !SlugInUse(rows, validation.data.value.slug) {
      var row := NewRow(validation.data.value, newId, now);
      NewRowStored(validation.data.value, newId, now);
      var s := InsertStep(rows, validation.data.value, newId, now);
      if s.response.error.None? {
        assert s.rows == rows + [row];
      }
    }
  }

  /** A row built from a valid create record and a UUID is a valid stored
      course. */
  lemma NewRowStored(input: CreateInput, id: string, now: nat)
    requires ValidCreateInput(input) && IsUuid(id)
    ensures StoredCourseOk(NewRow(input, id, now))
  {
  }

  lemma UpdateCourseKeepsStored(rows: seq<Course>, raw: Json, now: nat)
    requires AllStored(rows)
    ensures AllStored(UpdateCourseStep(rows, raw, now).rows)
  {
    var validation := ValidateUpdateData(raw);
    if validation.success {
      var u := validation.data.value;
      MergeKeepsStored(rows, u.id, u, now);
    }
  }

  /** Merging a valid update record into stored rows keeps them stored. */
  lemma MergeKeepsStored(rows: seq<Course>, id: string, u: UpdateInput, now: nat)
    requires AllStored(rows) && ValidUpdateInput(u)
    ensures AllStored(MergeWhereId(rows, id, u, now))
  {
    var m := MergeWhereId(rows, id, u, now);
    forall i | 0 <= i < |m| ensures StoredCourseOk(m[i]) {
      assert StoredCourseOk(rows[i]);
    }
  }

  // ---------------------------------------------------------------------
  // The service object

  class CourseService {
    /** `queries`: this service's handle on the shared `courses` table. */
    const queries: CourseTable

    ghost predicate Valid()
      reads this, queries
    {
      queries.Valid()
    }

    constructor (queries: CourseTable)
      ensures this.queries == queries
    {
      this.queries := queries;
    }

    method GetCourses() returns (r: Envelope<seq<Course>>)
      ensures r == GetCoursesResult(queries.rows)
    {
      var res := queries.SelectAll();
      r := ListEnvelope(res);
    }

    method GetCourseById(id: string) returns (r: Envelope<Course>)
      requires Valid()
      ensures r == GetCourseByIdResult(queries.rows, id)
    {
      var res := queries.SelectById(id);
      r := RowEnvelope(res);
    }

    method GetCourseBySlug(slug: string) returns (r: Envelope<Course>)
      requires Valid()
      ensures r == GetCourseBySlugResult(queries.rows, slug)
    {
      var res := queries.SelectBySlug(slug);
      r := RowEnvelope(res);
    }

    method GetPublishedCourses() returns (r: Envelope<seq<Course>>)
      ensures r == GetPublishedCoursesResult(queries.rows)
    {
      var res := queries.SelectPublished();
      r := ListEnvelope(res);
    }

    method CreateCourse(raw: Json, newId: string, now: nat) returns (r: Envelope<Course>)
      requires Valid()
      modifies queries
      ensures Valid()
      ensures r == CreateCourseStep(old(queries.rows), raw, newId, now).envelope
      ensures queries.rows == CreateCourseStep(old(queries.rows), raw, newId, now).rows
    {
      var validation := ValidateCreateData(raw);
      if !validation.success {
        return ErrorResponse(validation.error.value);
      }
      var slugCheck := GetCourseBySlug(validation.data.value.slug);
      if slugCheck.success && slugCheck.data.Some? {
        return ErrorResponse(SlugUniqueMsg);
      }
      var res := queries.Insert(validation.data.value, newId, now);
      r := WriteEnvelope(CreatingOp, res);
    }

    method UpdateCourse(raw: Json, now: nat) returns (r: Envelope<Course>)
      requires Valid()
      modifies queries
      ensures Valid()
      ensures r == UpdateCourseStep(old(queries.rows), raw, now).envelope
      ensures queries.rows == UpdateCourseStep(old(queries.rows), raw, now).rows
    {
      var validation := ValidateUpdateData(raw);
      if !validation.success {
        return ErrorResponse(validation.error.value);
      }
      var u := validation.data.value;
      if u.slug.Some? && u.slug.value != "" {
        var existing := GetCourseBySlug(u.slug.value);
        if existing.success && existing.data.Some? && existing.data.value.id != u.id {
          return ErrorResponse(SlugUniqueMsg);
        }
      }
      var res := queries.Update(u.id, u, now);
      r := WriteEnvelope(UpdatingOp, res);
    }

    method DeleteCourse(id: string) returns (r: Envelope<()>)
      requires Valid()
      modifies queries
      ensures Valid()
      ensures r == DeleteCourseStep(old(queries.rows), id).envelope
      ensures queries.rows == DeleteCourseStep(old(queries.rows), id).rows
    {
      var res := queries.Delete(id);
      r := RowEnvelope(res);
    }

    method ToggleCoursePublish(id: string, isPublished: bool, now: nat) returns (r: Envelope<Course>)
      requires Valid()
      modifies queries
      ensures Valid()
      ensures r == ToggleCoursePublishStep(old(queries.rows), id, isPublished, now).envelope
      ensures queries.rows == ToggleCoursePublishStep(old(queries.rows), id, isPublished, now).rows
    {
      var res := queries.TogglePublish(id, isPublished, now);
      r := RowEnvelope(res);
    }
  }

  /** `CourseService.getInstance`: the class-wide `instance` slot, filled
      on first use and handed out from then on. */
  class ServiceRegistry {
    var instance: CourseService?

    constructor ()
      ensures instance == null
    {
      instance := null;
    }

    method GetInstance(table: CourseTable) returns (s: CourseService)
      modifies this
      ensures old(instance) != null ==> s == old(instance)
      ensures old(instance) == null ==> fresh(s) && s.queries == table
      ensures instance == s
    {
      if instance == null {
        instance := new CourseService(table);
      }
      s := instance;
    }
  }
}
