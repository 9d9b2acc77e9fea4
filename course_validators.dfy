/** The validator adapter (lib/services/course/courseValidators.ts): turns a
    schema's parse result into a `{success, data, error}` record with one
    aggregated message, and maps backend errors to user messages. */
module CourseValidators {
  import opened JsValues
  import opened CourseSchemas

  /** `{ success, data, error }` as the validators return it. */
  datatype Validation<T> = Validation(success: bool, data: Option<T>, error: Option<string>)

  const ValidationPrefix := "Ошибка валидации: "

  /** `${err.path.join('.')}: ${err.message}` */
  function FormatIssue(i: Issue): string {
    Join(i.path, ".") + ": " + i.message
  }

  function FormatIssues(issues: seq<Issue>): (r: seq<string>)
    ensures |r| == |issues|
    ensures forall k :: 0 <= k < |r| ==> r[k] == FormatIssue(issues[k])
  {
    if issues == [] then [] else [FormatIssue(issues[0])] + FormatIssues(issues[1..])
  }

  /** The message of a failed validation: the prefix, then every issue
      formatted and joined with ", ". */
  function AggregateMessage(issues: seq<Issue>): (msg: string)
    ensures ValidationPrefix <= msg
  {
    ValidationPrefix + Join(FormatIssues(issues), ", ")
  }

  /** The record a parse result becomes. */
  function FromParse<T>(parsed: Result<T, seq<Issue>>): (r: Validation<T>)
    ensures r.success <==> parsed.Ok?
    ensures r.success ==> r.data == Some(parsed.value) && r.error.None?
    ensures !r.success ==> r.data.None? && r.error == Some(AggregateMessage(parsed.error))
  {
    match parsed
    case Ok(v) => Validation(true, Some(v), None)
    case Err(issues) => Validation(false, None, Some(AggregateMessage(issues)))
  }

  /** CourseValidators.validateCreateData. */
  function ValidateCreateData(raw: Json): (r: Validation<CreateInput>)
    ensures r.success <==> RulesHold(CreateMode, raw)
    ensures r.success ==> r.error.None? && r.data.Some? && ValidCreateInput(r.data.value)
    ensures r.success ==> r.data == Some(ParseCreate(raw).value)
    ensures r.success ==> r.data.value.title == raw.fields["title"].s && r.data.value.slug == raw.fields["slug"].s
    ensures !r.success ==> r.data.None? && r.error == Some(AggregateMessage(SchemaIssues(CreateMode, raw)))
  {
    FromParse(ParseCreate(raw))
  }

  /** CourseValidators.validateUpdateData. */
  function ValidateUpdateData(raw: Json): (r: Validation<UpdateInput>)
    ensures r.success <==> RulesHold(UpdateMode, raw)
    ensures r.success ==> r.error.None? && r.data.Some? && ValidUpdateInput(r.data.value)
    ensures r.success ==> r.data.value.id == raw.fields["id"].s
    ensures r.success ==> r.data == Some(ParseUpdate(raw).value)
    ensures !r.success ==> r.data.None? && r.error == Some(AggregateMessage(SchemaIssues(UpdateMode, raw)))
  {
    FromParse(ParseUpdate(raw))
  }

  /** A failed validation of one field reads "<key>: <message>" after the
      prefix. */
  lemma SingleFieldMessage(f: Field, message: string)
    ensures AggregateMessage([Issue([Key(f)], message)]) == ValidationPrefix + Key(f) + ": " + message
  {
    assert FormatIssues([Issue([Key(f)], message)]) == [FormatIssue(Issue([Key(f)], message))];
  }

  /** An error reported by the backend (`{ code, message }`); a missing
      property is the empty string. */
  datatype PgError = PgError(code: string, message: string)

  /** SQLSTATE 23505, unique_violation (integrity constraint violation class
      23 in PostgreSQL's error codes). */
  const UniqueViolation := "23505"

  /** CourseValidators.generateErrorMessage. */
  function GenerateErrorMessage(operation: string, error: PgError): (msg: string)
    ensures error.code == UniqueViolation ==> msg == SlugUniqueMsg
    ensures error.code != UniqueViolation && error.message != "" ==> msg == error.message
    ensures error.code != UniqueViolation && error.message == "" ==>
              msg == "Неизвестная ошибка при " + operation + " курса"
    ensures msg != ""
  {
    if error.code == UniqueViolation then SlugUniqueMsg
    else if error.message != "" then error.message
    else "Неизвестная ошибка при " + operation + " курса"
  }
}
