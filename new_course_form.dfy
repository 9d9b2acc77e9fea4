/** The create-only course form (app/admin/courses/new/hooks/useCourseForm.ts):
    the same handlers as the create/edit form, always against the create
    schema, plus `resetForm`. Single-field validation, the error-map updates
    and the `validateForm` fold are the shared functions of `CourseForm`. */
module NewCourseForm {
  import opened JsValues
  import opened CourseSchemas
  import opened SlugGenerator
  import opened CourseForm

  /** The record a reset puts back is the record a fresh hook starts from,
      and submitting it is refused twice over: `isFormValid` is false (the
      title and slug are empty) and validateForm flags title, slug and cover. */
  lemma ResetFormNotSubmittable()
    ensures !ReadyToSubmit(map[], EmptyForm)
    ensures !RulesHold(CreateMode, JObject(EmptyForm))
    ensures ErrorsOf(FormIssues(Create, EmptyForm)).Keys == {"title", "slug", "cover_image_url"}
  {
    assert Get(EmptyForm, "title") == Some(JStr(""));
    EmptyCoverFailsValidation(Create, EmptyForm);
    EmptyFormErrors();
  }

  /** The hook's state and handlers. */
  class NewCourseFormState {
    var formData: map<string, Json>
    var formErrors: map<string, string>
    var isLoading: bool
    var serverError: Option<string>
    var isDirty: bool

    constructor ()
      ensures formData == EmptyForm && formErrors == map[]
      ensures !isLoading && serverError.None? && !isDirty
    {
      formData := EmptyForm;
      formErrors := map[];
      isLoading := false;
      serverError := None;
      isDirty := false;
    }

    /** handleChange: a checkbox stores its `checked` flag, any other input
        its text; a flagged field is revalidated against the create schema. */
    method HandleChange(name: string, value: string, isCheckbox: bool, checked: bool)
      modifies this
      ensures var newValue := if isCheckbox then JBool(checked) else JStr(value);
              formData == old(formData)[name := newValue] &&
              formErrors == ChangeErrors(CreateMode, old(formErrors), name, newValue)
      ensures isDirty
      ensures isLoading == old(isLoading) && serverError == old(serverError)
    {
      var newValue := if isCheckbox then JBool(checked) else JStr(value);
      formData := formData[name := newValue];
      if !isDirty {
        isDirty := true;
      }
      if Flagged(formErrors, name) {
        var error := ValidateField(CreateMode, name, newValue);
        formErrors := formErrors[name := ErrorText(error)];
      }
    }

    method HandleBlur(name: string, value: string)
      modifies this
      ensures formErrors == BlurErrors(CreateMode, old(formErrors), name, value)
      ensures formData == old(formData) && isDirty == old(isDirty)
      ensures isLoading == old(isLoading) && serverError == old(serverError)
    {
      var error := ValidateField(CreateMode, name, JStr(value));
      formErrors := formErrors[name := ErrorText(error)];
    }

    method HandleTitleChange(title: string)
      modifies this
      ensures formData == old(formData)["title" := JStr(title)]["slug" := JStr(GenerateSlug(title))]
      ensures formErrors == TitleChangeErrors(CreateMode, old(formErrors), title)
      ensures isDirty
      ensures isLoading == old(isLoading) && serverError == old(serverError)
    {
      var generatedSlug := GenerateSlug(title);
      formData := formData["title" := JStr(title)]["slug" := JStr(generatedSlug)];
      if !isDirty {
        isDirty := true;
      }
      var titleError := ValidateField(CreateMode, "title", JStr(title));
      var slugError := ValidateField(CreateMode, "slug", JStr(generatedSlug));
      formErrors := formErrors["title" := ErrorText(titleError)]["slug" := ErrorText(slugError)];
    }

    /** validateForm against the create schema. */
    method ValidateForm() returns (ok: bool)
      modifies this
      ensures ok <==> RulesHold(CreateMode, JObject(formData))
      ensures ok ==> formErrors == map[]
      ensures !ok ==> formErrors == ErrorsOf(FormIssues(Create, formData))
      ensures formData == old(formData) && isDirty == old(isDirty)
      ensures isLoading == old(isLoading) && serverError == old(serverError)
    {
      var issues := FormIssues(Create, formData);
      SchemaIssuesEmptyIff(CreateMode, JObject(formData));
      if issues != [] {
        formErrors := CollectErrors(issues);
        return false;
      }
      formErrors := map[];
      return true;
    }

    /** resetForm: back to the empty record, no errors, no server error,
        not dirty; `isLoading` is left alone. */
    method ResetForm()
      modifies this
      ensures formData == EmptyForm && formErrors == map[]
      ensures serverError.None? && !isDirty
      ensures isLoading == old(isLoading)
    {
      formData := EmptyForm;
      formErrors := map[];
      serverError := None;
      isDirty := false;
    }

    /** hasErrors: some field carries a non-empty message. */
    function HasErrors(): (r: bool)
      reads this
      ensures r <==> exists name :: name in formErrors && formErrors[name] != ""
    {
      AnyFlagged(formErrors)
    }

    /** isFormValid: no field is flagged, and the title and the slug are
        truthy, so neither is an empty string. */
    function IsFormValid(): (r: bool)
      reads this
      ensures r <==> !HasErrors() && Truthy(Get(formData, "title")) && Truthy(Get(formData, "slug"))
      ensures r ==> "title" in formData && formData["title"] != JStr("") &&
                    "slug" in formData && formData["slug"] != JStr("")
    {
      ReadyToSubmit(formErrors, formData)
    }

    method SetFormErrors(errors: map<string, string>)
      modifies this
      ensures formErrors == errors
      ensures formData == old(formData) && isDirty == old(isDirty)
      ensures isLoading == old(isLoading) && serverError == old(serverError)
    {
      formErrors := errors;
    }

    method SetServerError(error: Option<string>)
      modifies this
      ensures serverError == error
      ensures formData == old(formData) && formErrors == old(formErrors) && isDirty == old(isDirty)
      ensures isLoading == old(isLoading)
    {
      serverError := error;
    }

    method SetIsLoading(loading: bool)
      modifies this
      ensures isLoading == loading
      ensures formData == old(formData) && formErrors == old(formErrors) && isDirty == old(isDirty)
      ensures serverError == old(serverError)
    {
      isLoading := loading;
    }
  }
}
