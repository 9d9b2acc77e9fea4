/** The course form state (app/admin/courses/hooks/useCourseForm.ts): the
    field values and per-field error messages of the create/edit form, the
    single-field validation behind its handlers, and whole-form validation.

    The pure pieces (initial record, `validateField`, the error-map updates,
    the `forEach` fold of `validateForm`) are functions shared with the
    create-only hook; `CourseFormState` is the hook's state and handlers. */
module CourseForm {
  import opened JsValues
  import opened CourseSchemas
  import opened SlugGenerator

  datatype FormMode = Create | Edit

  /** The schema a form mode validates with. */
  function SchemaMode(mode: FormMode): Mode {
    if mode == Create then CreateMode else UpdateMode
  }

  // ---------------------------------------------------------------------
  // Initial record

  /** The empty create record: empty strings, level `beginner`, not published. */
  const EmptyForm: map<string, Json> := map[
    "title" := JStr(""), "description" := JStr(""), "slug" := JStr(""),
    "duration" := JStr(""), "level" := JStr("beginner"),
    "cover_image_url" := JStr(""), "is_published" := JBool(false)]

  /** The record a course is edited from; a null column shows as `''`. */
  function EditForm(c: Course): map<string, Json> {
    map[
      "id" := JStr(c.id), "title" := JStr(c.title),
      "description" := JStr(c.description.GetOr("")), "slug" := JStr(c.slug),
      "duration" := JStr(c.duration.GetOr("")), "level" := JStr(LevelName(c.level)),
      "cover_image_url" := JStr(c.coverImageUrl.GetOr("")),
      "is_published" := JBool(c.isPublished)]
  }

  /** The form's first record: the course's when editing one, else empty. */
  function InitialFormData(mode: FormMode, initialData: Option<Course>): (data: map<string, Json>)
    ensures mode == Edit && initialData.Some? ==> data == EditForm(initialData.value)
    ensures !(mode == Edit && initialData.Some?) ==> data == EmptyForm
  {
    if mode == Edit && initialData.Some? then EditForm(initialData.value) else EmptyForm
  }

  // ---------------------------------------------------------------------
  // One field

  /** `message || REQUIRED`: an empty message falls back to REQUIRED. */
  function OrRequired(message: string): (r: string)
    ensures r != ""
    ensures message != "" ==> r == message
    ensures message == "" ==> r == RequiredMsg
  {
    if message != "" then message else RequiredMsg
  }

  /** validateField: the schema narrowed to `name` (nothing, if the schema
      has no such key) judges `{ [name]: value }`; the first issue's
      message, or REQUIRED when it is empty; `None` when accepted. Every
      field message is non-empty, so the result is the first issue's
      message itself. */
  function ValidateField(mode: Mode, name: string, value: Json): (r: Option<string>)
    ensures r.None? <==> FieldOfKey(name).None? || FieldOk(mode, FieldOfKey(name).value, Some(value))
    ensures r.Some? ==> r.value != ""
    ensures r.Some? ==> r.value == FieldMessages(mode, FieldOfKey(name).value, Some(value))[0]
  {
    match FieldOfKey(name)
    case None => None
    case Some(f) =>
      FieldMessagesEmptyIff(mode, f, Some(value));
      FieldMessagesNonEmpty(mode, f, Some(value));
      var messages := FieldMessages(mode, f, Some(value));
      if messages == [] then None else Some(OrRequired(messages[0]))
  }

  /** `error || ''`. */
  function ErrorText(error: Option<string>): string {
    error.GetOr("")
  }

  /** The text a field's error entry gets when it is revalidated: empty
      exactly when the field accepts the value. */
  lemma ErrorTextEmptyIff(mode: Mode, name: string, value: Json)
    ensures ErrorText(ValidateField(mode, name, value)) == "" <==>
            FieldOfKey(name).None? || FieldOk(mode, FieldOfKey(name).value, Some(value))
  {
  }

  /** A field is flagged when its error entry is a non-empty string. */
  predicate Flagged(errors: map<string, string>, name: string) {
    name in errors && errors[name] != ""
  }

  /** The errors after a change of `name`: revalidated only if it was
      already flagged; every other entry untouched. */
  function ChangeErrors(mode: Mode, errors: map<string, string>, name: string, value: Json): (r: map<string, string>)
    ensures forall k :: k != name ==> (k in r <==> k in errors) && (k in errors ==> r[k] == errors[k])
    ensures !Flagged(errors, name) ==> r == errors
    ensures Flagged(errors, name) ==>
              name in r && (r[name] == "" <==> FieldOfKey(name).None? || FieldOk(mode, FieldOfKey(name).value, Some(value)))
    ensures Flagged(errors, name) && FieldOfKey(name).Some? && !FieldOk(mode, FieldOfKey(name).value, Some(value)) ==>
              FieldMessages(mode, FieldOfKey(name).value, Some(value)) != [] &&
              r[name] == FieldMessages(mode, FieldOfKey(name).value, Some(value))[0]
  {
    if Flagged(errors, name) then errors[name := ErrorText(ValidateField(mode, name, value))]
    else errors
  }

  /** The errors after leaving field `name`: always revalidated; every other
      entry untouched. */
  function BlurErrors(mode: Mode, errors: map<string, string>, name: string, value: string): (r: map<string, string>)
    ensures forall k :: k != name ==> (k in r <==> k in errors) && (k in errors ==> r[k] == errors[k])
    ensures name in r
    ensures r[name] == "" <==> FieldOfKey(name).None? || FieldOk(mode, FieldOfKey(name).value, Some(JStr(value)))
    ensures FieldOfKey(name).Some? && !FieldOk(mode, FieldOfKey(name).value, Some(JStr(value))) ==>
              FieldMessages(mode, FieldOfKey(name).value, Some(JStr(value))) != [] &&
              r[name] == FieldMessages(mode, FieldOfKey(name).value, Some(JStr(value)))[0]
  {
    errors[name := ErrorText(ValidateField(mode, name, JStr(value)))]
  }

  /** The errors after a title change: the title and the generated slug are
      both revalidated; every other entry untouched. */
  function TitleChangeErrors(mode: Mode, errors: map<string, string>, title: string): (r: map<string, string>)
    ensures forall k :: k != "title" && k != "slug" ==> (k in r <==> k in errors) && (k in errors ==> r[k] == errors[k])
    ensures "title" in r && (r["title"] == "" <==> TitleOk(Some(JStr(title))))
    ensures "slug" in r && (r["slug"] == "" <==> SlugOk(Some(JStr(GenerateSlug(title)))))
    ensures !TitleOk(Some(JStr(title))) ==>
              FieldMessages(mode, TitleKey, Some(JStr(title))) != [] &&
              r["title"] == FieldMessages(mode, TitleKey, Some(JStr(title)))[0]
    ensures !SlugOk(Some(JStr(GenerateSlug(title)))) ==>
              FieldMessages(mode, SlugKey, Some(JStr(GenerateSlug(title)))) != [] &&
              r["slug"] == FieldMessages(mode, SlugKey, Some(JStr(GenerateSlug(title))))[0]
  {
    var slug := GenerateSlug(title);
    TitleErrorEmptyIff(mode, title);
    SlugErrorEmptyIff(mode, slug);
    errors["title" := ErrorText(ValidateField(mode, "title", JStr(title)))]
          ["slug" := ErrorText(ValidateField(mode, "slug", JStr(slug)))]
  }

  /** The title entry a title change writes is empty iff the title is
      accepted, and otherwise holds the title's first message. */
  lemma TitleErrorEmptyIff(mode: Mode, title: string)
    ensures ErrorText(ValidateField(mode, "title", JStr(title))) == "" <==> TitleOk(Some(JStr(title)))
    ensures !TitleOk(Some(JStr(title))) ==>
              FieldMessages(mode, TitleKey, Some(JStr(title))) != [] &&
              ErrorText(ValidateField(mode, "title", JStr(title))) == FieldMessages(mode, TitleKey, Some(JStr(title)))[0]
  {
    KeyRoundTrip(TitleKey);
    ErrorTextEmptyIff(mode, "title", JStr(title));
  }

  /** The slug entry a title change writes is empty iff the slug is
      accepted, and otherwise holds the slug's first message. */
  lemma SlugErrorEmptyIff(mode: Mode, slug: string)
    ensures ErrorText(ValidateField(mode, "slug", JStr(slug))) == "" <==> SlugOk(Some(JStr(slug)))
    ensures !SlugOk(Some(JStr(slug))) ==>
              FieldMessages(mode, SlugKey, Some(JStr(slug))) != [] &&
              ErrorText(ValidateField(mode, "slug", JStr(slug))) == FieldMessages(mode, SlugKey, Some(JStr(slug)))[0]
  {
    KeyRoundTrip(SlugKey);
    ErrorTextEmptyIff(mode, "slug", JStr(slug));
  }

  /** A title with a Russian letter always leaves a slug error. */
  lemma RussianTitleFlagsSlug(mode: Mode, errors: map<string, string>, title: string, i: nat)
    requires i < |title| && IsCyrillicLetter(title[i])
    ensures Flagged(TitleChangeErrors(mode, errors, title), "slug")
  {
    CyrillicSurvives(title, i);
    var slug := GenerateSlug(title);
    var j :| 0 <= j < |slug| && IsCyrillicLower(slug[j]);
    assert !IsSlugChar(slug[j]);
  }

  // ---------------------------------------------------------------------
  // The whole form

  /** The field an issue is filed under: its first path segment, if that
      is a non-empty string. */
  function IssueField(issue: Issue): Option<string> {
    if |issue.path| > 0 && issue.path[0] != "" then Some(issue.path[0]) else None
  }

  /** One step of the `forEach` in validateForm. */
  function Record(errors: map<string, string>, issue: Issue): map<string, string> {
    match IssueField(issue)
    case Some(name) => errors[name := issue.message]
    case None => errors
  }

  /** The error map validateForm builds from the issues, in order. */
  function ErrorsOf(issues: seq<Issue>): map<string, string>
    decreases |issues|
  {
    if issues == [] then map[]
    else Record(ErrorsOf(issues[..|issues| - 1]), issues[|issues| - 1])
  }

  /** The map has one entry per field some issue is filed under, and no
      other. */
  lemma {:induction false} ErrorsOfKeys(issues: seq<Issue>, name: string)
    ensures name in ErrorsOf(issues) <==>
            exists i :: 0 <= i < |issues| && IssueField(issues[i]) == Some(name)
    decreases |issues|
  {
    if issues != [] {
      var init := issues[..|issues| - 1];
      ErrorsOfKeys(init, name);
      if exists i :: 0 <= i < |init| && IssueField(init[i]) == Some(name) {
        var i :| 0 <= i < |init| && IssueField(init[i]) == Some(name);
        assert issues[i] == init[i];
      }
      if exists i :: 0 <= i < |issues| && IssueField(issues[i]) == Some(name) {
        var i :| 0 <= i < |issues| && IssueField(issues[i]) == Some(name);
        if i < |init| {
          assert init[i] == issues[i];
        }
      }
    }
  }

  /** A field's entry is the message of the last issue filed under it. */
  lemma {:induction false} ErrorsOfLastWins(issues: seq<Issue>, i: nat)
    requires i < |issues| && IssueField(issues[i]).Some?
    requires forall j :: i < j < |issues| ==> IssueField(issues[j]) != IssueField(issues[i])
    ensures IssueField(issues[i]).value in ErrorsOf(issues)
    ensures ErrorsOf(issues)[IssueField(issues[i]).value] == issues[i].message
    decreases |issues|
  {
    if i < |issues| - 1 {
      var init := issues[..|issues| - 1];
      assert init[i] == issues[i];
      forall j | i < j < |init| ensures IssueField(init[j]) != IssueField(init[i]) {
        assert init[j] == issues[j];
      }
      ErrorsOfLastWins(init, i);
    }
  }

  /** The `forEach` of validateForm: each issue with a first path segment
      sets that entry to its message. */
  method CollectErrors(issues: seq<Issue>) returns (errors: map<string, string>)
    ensures errors == ErrorsOf(issues)
  {
    errors := map[];
    var i := 0;
    while i < |issues|
      invariant 0 <= i <= |issues|
      invariant errors == ErrorsOf(issues[..i])
    {
      assert issues[..i + 1][..i] == issues[..i];
      var err := issues[i];
      if |err.path| > 0 && err.path[0] != "" {
        errors := errors[err.path[0] := err.message];
      }
      i := i + 1;
    }
    assert issues[..|issues|] == issues;
  }

  /** What validateForm reports for a form record. */
  function FormIssues(mode: FormMode, data: map<string, Json>): seq<Issue> {
    SchemaIssues(SchemaMode(mode), JObject(data))
  }

  /** validateForm fails exactly when the form breaks its mode's rules. */
  lemma FormIssuesEmptyIff(mode: FormMode, data: map<string, Json>)
    ensures FormIssues(mode, data) == [] <==> RulesHold(SchemaMode(mode), JObject(data))
  {
    SchemaIssuesEmptyIff(SchemaMode(mode), JObject(data));
  }

  /** A form that fails validation gets at least one entry, and every entry
      names a field of the schema. */
  lemma FailedFormFlagsFields(mode: FormMode, data: map<string, Json>)
    requires !RulesHold(SchemaMode(mode), JObject(data))
    ensures ErrorsOf(FormIssues(mode, data)) != map[]
    ensures forall name :: name in ErrorsOf(FormIssues(mode, data)) ==> FieldOfKey(name).Some?
  {
    var issues := FormIssues(mode, data);
    FormIssuesEmptyIff(mode, data);
    FormIssuePaths(mode, data);
    FlaggedFieldsOf(issues);
  }

  /** The issues of a form sit at schema keys. */
  lemma FormIssuePaths(mode: FormMode, data: map<string, Json>)
    ensures PathsNameFields(FormIssues(mode, data))
  {
    ObjectIssuePaths(SchemaMode(mode), data);
  }

  /** Folding issues that sit at schema keys gives entries for schema keys
      only, and at least one entry when there is an issue. */
  lemma FlaggedFieldsOf(issues: seq<Issue>)
    requires PathsNameFields(issues)
    ensures issues != [] ==> ErrorsOf(issues) != map[]
    ensures forall name :: name in ErrorsOf(issues) ==> FieldOfKey(name).Some?
  {
    if issues != [] {
      var first := issues[0];
      assert FieldOfKey(first.path[0]).Some?;
      assert first.path[0] != "";
      assert IssueField(issues[0]) == Some(first.path[0]);
      ErrorsOfKeys(issues, first.path[0]);
    }
    forall name | name in ErrorsOf(issues) ensures FieldOfKey(name).Some? {
      ErrorsOfKeys(issues, name);
    }
  }

  /** An empty cover URL, as both initial records hold when the course has
      none, fails `.url()`: such a form never passes validateForm. */
  lemma EmptyCoverFailsValidation(mode: FormMode, data: map<string, Json>)
    requires "cover_image_url" in data && data["cover_image_url"] == JStr("")
    ensures !RulesHold(SchemaMode(mode), JObject(data))
  {
  }

  /** The fresh create form reports four issues: the empty title, the empty
      slug twice (too short, and not matching the pattern) and the empty
      cover URL. */
  lemma EmptyFormIssues()
    ensures FormIssues(Create, EmptyForm) ==
            [Issue(["title"], TitleRequiredMsg), Issue(["slug"], SlugRequiredMsg),
             Issue(["slug"], InvalidSlugMsg), Issue(["cover_image_url"], InvalidUrlMsg)]
  {
    EmptyFormMessages();
    var o := EmptyForm;
    var t := FieldIssues(CreateMode, TitleKey, o);
    var sl := FieldIssues(CreateMode, SlugKey, o);
    var c := FieldIssues(CreateMode, CoverImageUrlKey, o);
    assert t == [Issue(["title"], TitleRequiredMsg)];
    assert sl == [Issue(["slug"], SlugRequiredMsg), Issue(["slug"], InvalidSlugMsg)];
    assert c == [Issue(["cover_image_url"], InvalidUrlMsg)];
    assert ObjectIssues(CreateMode, o) == t + [] + sl + c + [] + [] + [] + [];
  }

  /** The messages of each field of the empty create record. */
  lemma EmptyFormMessages()
    ensures FieldMessages(CreateMode, TitleKey, Get(EmptyForm, Key(TitleKey))) == [TitleRequiredMsg]
    ensures FieldMessages(CreateMode, DescriptionKey, Get(EmptyForm, Key(DescriptionKey))) == []
    ensures FieldMessages(CreateMode, SlugKey, Get(EmptyForm, Key(SlugKey))) == [SlugRequiredMsg, InvalidSlugMsg]
    ensures FieldMessages(CreateMode, CoverImageUrlKey, Get(EmptyForm, Key(CoverImageUrlKey))) == [InvalidUrlMsg]
    ensures FieldMessages(CreateMode, DurationKey, Get(EmptyForm, Key(DurationKey))) == []
    ensures FieldMessages(CreateMode, LevelKey, Get(EmptyForm, Key(LevelKey))) == []
    ensures FieldMessages(CreateMode, IsPublishedKey, Get(EmptyForm, Key(IsPublishedKey))) == []
  {
    EmptyFormValues();
    assert ParseLevel("beginner") == Some(Beginner);
  }

  lemma EmptyFormValues()
    ensures Get(EmptyForm, Key(TitleKey)) == Some(JStr(""))
    ensures Get(EmptyForm, Key(DescriptionKey)) == Some(JStr(""))
    ensures Get(EmptyForm, Key(SlugKey)) == Some(JStr(""))
    ensures Get(EmptyForm, Key(CoverImageUrlKey)) == Some(JStr(""))
    ensures Get(EmptyForm, Key(DurationKey)) == Some(JStr(""))
    ensures Get(EmptyForm, Key(LevelKey)) == Some(JStr("beginner"))
    ensures Get(EmptyForm, Key(IsPublishedKey)) == Some(JBool(false))
  {
  }

  /** Of the two slug issues the later one wins, so the fresh create form
      shows the pattern message under `slug`, not the required one. */
  lemma EmptyFormErrors()
    ensures ErrorsOf(FormIssues(Create, EmptyForm)) ==
            map["title" := TitleRequiredMsg, "slug" := InvalidSlugMsg, "cover_image_url" := InvalidUrlMsg]
  {
    EmptyFormIssues();
    EmptyFormIssueFold();
  }

  lemma EmptyFormIssueFold()
    ensures ErrorsOf([Issue(["title"], TitleRequiredMsg), Issue(["slug"], SlugRequiredMsg),
                      Issue(["slug"], InvalidSlugMsg), Issue(["cover_image_url"], InvalidUrlMsg)]) ==
            map["title" := TitleRequiredMsg, "slug" := InvalidSlugMsg, "cover_image_url" := InvalidUrlMsg]
  {
    var a := Issue(["title"], TitleRequiredMsg);
    var b := Issue(["slug"], SlugRequiredMsg);
    var c := Issue(["slug"], InvalidSlugMsg);
    var d := Issue(["cover_image_url"], InvalidUrlMsg);
    assert IssueField(a) == Some("title");
    assert IssueField(b) == Some("slug");
    assert IssueField(c) == Some("slug");
    assert IssueField(d) == Some("cover_image_url");
    ErrorsOfSnoc([], a);
    assert [] + [a] == [a];
    ErrorsOfSnoc([a], b);
    assert [a] + [b] == [a, b];
    ErrorsOfSnoc([a, b], c);
    assert [a, b] + [c] == [a, b, c];
    ErrorsOfSnoc([a, b, c], d);
    assert [a, b, c] + [d] == [a, b, c, d];
  }

  /** One more issue is one more step of the fold. */
  lemma ErrorsOfSnoc(issues: seq<Issue>, issue: Issue)
    ensures ErrorsOf(issues + [issue]) == Record(ErrorsOf(issues), issue)
  {
    assert (issues + [issue])[..|issues|] == issues;
  }

  /** hasErrors. */
  predicate AnyFlagged(errors: map<string, string>) {
    exists name :: name in errors && errors[name] != ""
  }

  /** isFormValid. */
  predicate ReadyToSubmit(errors: map<string, string>, data: map<string, Json>) {
    !AnyFlagged(errors) && Truthy(Get(data, "title")) && Truthy(Get(data, "slug"))
  }

  /** A create form that validateForm accepts is valid: its map is cleared
      and its title and slug are non-empty. */
  lemma AcceptedCreateFormIsValid(data: map<string, Json>)
    requires RulesHold(CreateMode, JObject(data))
    ensures ReadyToSubmit(map[], data)
  {
  }

  /** A valid form has no flagged field and carries a title and a slug
      that are not empty strings. */
  lemma ValidFormHasTitleAndSlug(errors: map<string, string>, data: map<string, Json>)
    requires ReadyToSubmit(errors, data)
    ensures forall name :: name in errors ==> errors[name] == ""
    ensures "title" in data && data["title"] != JStr("") && data["title"] != JBool(false)
    ensures "slug" in data && data["slug"] != JStr("") && data["slug"] != JBool(false)
  {
  }

  // ---------------------------------------------------------------------
  // The hook's state

  class CourseFormState {
    const mode: FormMode
    var formData: map<string, Json>
    var formErrors: map<string, string>
    var isLoading: bool
    var isSaving: bool
    var serverError: Option<string>
    var isDirty: bool

    constructor (mode: FormMode, initialData: Option<Course>)
      ensures this.mode == mode && formData == InitialFormData(mode, initialData)
      ensures formErrors == map[] && serverError.None? && !isDirty && !isSaving
      ensures isLoading <==> mode == Edit && initialData.None?
    {
      this.mode := mode;
      formData := InitialFormData(mode, initialData);
      formErrors := map[];
      isLoading := mode == Edit && initialData.None?;
      isSaving := false;
      serverError := None;
      isDirty := false;
    }

    /** handleChange: a checkbox stores its `checked` flag, any other input
        its text. */
    method HandleChange(name: string, value: string, isCheckbox: bool, checked: bool)
      modifies this
      ensures var newValue := if isCheckbox then JBool(checked) else JStr(value);
              formData == old(formData)[name := newValue] &&
              formErrors == ChangeErrors(SchemaMode(mode), old(formErrors), name, newValue)
      ensures isDirty
      ensures isLoading == old(isLoading) && isSaving == old(isSaving) && serverError == old(serverError)
    {
      var newValue := if isCheckbox then JBool(checked) else JStr(value);
      formData := formData[name := newValue];
      if !isDirty {
        isDirty := true;
      }
      if Flagged(formErrors, name) {
        var error := ValidateField(SchemaMode(mode), name, newValue);
        formErrors := formErrors[name := ErrorText(error)];
      }
    }

    method HandleTextareaChange(name: string, value: string)
      modifies this
      ensures formData == old(formData)[name := JStr(value)]
      ensures formErrors == ChangeErrors(SchemaMode(mode), old(formErrors), name, JStr(value))
      ensures isDirty
      ensures isLoading == old(isLoading) && isSaving == old(isSaving) && serverError == old(serverError)
    {
      formData := formData[name := JStr(value)];
      if !isDirty {
        isDirty := true;
      }
      if Flagged(formErrors, name) {
        var error := ValidateField(SchemaMode(mode), name, JStr(value));
        formErrors := formErrors[name := ErrorText(error)];
      }
    }

    method HandleBlur(name: string, value: string)
      modifies this
      ensures formErrors == BlurErrors(SchemaMode(mode), old(formErrors), name, value)
      ensures formData == old(formData) && isDirty == old(isDirty)
      ensures isLoading == old(isLoading) && isSaving == old(isSaving) && serverError == old(serverError)
    {
      var error := ValidateField(SchemaMode(mode), name, JStr(value));
      formErrors := formErrors[name := ErrorText(error)];
    }

    method HandleTitleChange(title: string)
      modifies this
      ensures formData == old(formData)["title" := JStr(title)]["slug" := JStr(GenerateSlug(title))]
      ensures formErrors == TitleChangeErrors(SchemaMode(mode), old(formErrors), title)
      ensures isDirty
      ensures isLoading == old(isLoading) && isSaving == old(isSaving) && serverError == old(serverError)
    {
      var generatedSlug := GenerateSlug(title);
      formData := formData["title" := JStr(title)]["slug" := JStr(generatedSlug)];
      if !isDirty {
        isDirty := true;
      }
      var titleError := ValidateField(SchemaMode(mode), "title", JStr(title));
      var slugError := ValidateField(SchemaMode(mode), "slug", JStr(generatedSlug));
      formErrors := formErrors["title" := ErrorText(titleError)]["slug" := ErrorText(slugError)];
    }

    /** validateForm: on failure the map holds, per field, the message of
        its last issue; on success it is cleared. */
    method ValidateForm() returns (ok: bool)
      modifies this
      ensures ok <==> RulesHold(SchemaMode(mode), JObject(formData))
      ensures ok ==> formErrors == map[]
      ensures !ok ==> formErrors == ErrorsOf(FormIssues(mode, formData))
      ensures formData == old(formData) && isDirty == old(isDirty)
      ensures isLoading == old(isLoading) && isSaving == old(isSaving) && serverError == old(serverError)
    {
      var issues := FormIssues(mode, formData);
      FormIssuesEmptyIff(mode, formData);
      if issues != [] {
        formErrors := CollectErrors(issues);
        return false;
      }
      formErrors := map[];
      return true;
    }

    /** hasErrors: some field carries a non-empty message. */
    function HasErrors(): (r: bool)
      reads this
      ensures r <==> exists name :: name in formErrors && formErrors[name] != ""
    {
      AnyFlagged(formErrors)
    }

    /** isFormValid: no field is flagged, and the title and the slug are
        truthy, so neither is an empty string. */
    function IsFormValid(): (r: bool)
      reads this
      ensures r <==> !HasErrors() && Truthy(Get(formData, "title")) && Truthy(Get(formData, "slug"))
      ensures r ==> "title" in formData && formData["title"] != JStr("") &&
                    "slug" in formData && formData["slug"] != JStr("")
    {
      ReadyToSubmit(formErrors, formData)
    }

    method SetFormErrors(errors: map<string, string>)
      modifies this
      ensures formErrors == errors
      ensures formData == old(formData) && isDirty == old(isDirty)
      ensures isLoading == old(isLoading) && isSaving == old(isSaving) && serverError == old(serverError)
    {
      formErrors := errors;
    }

    method SetServerError(error: Option<string>)
      modifies this
      ensures serverError == error
      ensures formData == old(formData) && formErrors == old(formErrors) && isDirty == old(isDirty)
      ensures isLoading == old(isLoading) && isSaving == old(isSaving)
    {
      serverError := error;
    }

    method SetIsLoading(loading: bool)
      modifies this
      ensures isLoading == loading
      ensures formData == old(formData) && formErrors == old(formErrors) && isDirty == old(isDirty)
      ensures isSaving == old(isSaving) && serverError == old(serverError)
    {
      isLoading := loading;
    }
  }
}
