# Course platform core, modelled in Dafny

This project models the course-management layers of the course-platform
admin area and proves properties of it. They fall into six parts:

- **Field rules** (`CourseSchemas`). A course's field rules, with their limits and messages. Each rule is written two ways:
  - the list of issues zod reports for an object: fields in shape order, each field's checks in declared order, every failing check reported;
  - a declarative predicate that says which objects are accepted.
  Lemmas prove the two agree.
- **Validator adapter** (`CourseValidators`). It turns a parse result into `{success, data, error}` with one aggregated message. It also maps backend errors to user messages: SQLSTATE 23505, PostgreSQL's `unique_violation`, becomes the "slug exists" message.
- **Course table** (`CourseQueries`). An in-memory table that replaces the network client. It keeps the store's two unique constraints, on `id` and on `slug`. Each query is a function from the rows to an answer plus the rows afterwards. The `CourseTable` class applies those functions in place.
- **Course service** (`CourseService`). It validates, then checks the slug in advance, then writes. Every answer is wrapped in a `{data, error, success}` envelope. Each operation is a pure step over the rows, and the `CourseService` class runs the same steps against a shared `CourseTable`. `ServiceRegistry` holds the class-wide singleton slot.
- **Toast list** (`ToastProvider`). The reducer, the duration default and the provider's list.
- **Form and list hooks**:
  - `CourseForm`: the create/edit form hook, with its pure pieces (initial record, `validateField`, the error-map updates, and the fold inside `validateForm`);
  - `SlugGenerator`: `generateSlug`;
  - `NewCourseForm`: the create-only form with `resetForm`;
  - `CoursesList`: the admin course list.

Observations that the proofs make precise:

- `generateSlug` ends with `.trim()`, but at that point the string holds no white space, so the trim never removes anything (`SlugGenerator.TrimWithoutSpaces`). A title that starts or ends with a space therefore gives a slug that starts or ends with `-`.
- A Russian letter in a title survives into the generated slug. The slug rule `^[a-z0-9-]+$` then refuses it, so a Russian title always leaves a slug error after a title change (`CourseForm.RussianTitleFlagsSlug`).
- Both form hooks start `cover_image_url` as `''`, and `''` fails `.url()`. A form whose cover is left empty never passes `validateForm` (`CourseForm.EmptyCoverFailsValidation`). The fresh create form shows three errors: title, slug (the pattern message, which overwrites the length message) and cover (`CourseForm.EmptyFormErrors`).
- `idSchema` reports the level message (`INVALID_LEVEL`) for a malformed id. The model keeps that message.
- The update schema is the create schema made `.partial()`. `.partial()` wraps each field in an optional, which returns early on an absent value, so the defaults for `level` and `is_published` never apply to an update.
- Properties outside the shape, such as `order_index`, are stripped. An insert always stores `order_index = 0`.

## Model

| member | source | states |
|---|---|---|
| CourseSchemas.ParseLevel | lib/validation/courseSchemas.ts:24-30 | a level string is accepted exactly when it names one of the three levels, and the parsed level names that string |
| CourseSchemas.FieldOfKey | lib/validation/courseSchemas.ts:33-56 | a property name denotes a schema field exactly when it is one of the eight keys of the create and update shapes |
| CourseSchemas.KeyRoundTrip | lib/validation/courseSchemas.ts:33-56 | a field's key maps back to that field |
| CourseSchemas.TitleTooLongText | lib/constants/validation.ts:11-12 | the too-long message for the title reads "Слишком длинный название. Максимум 200 символов" |
| CourseSchemas.TitleBoundary | lib/validation/courseSchemas.ts:19-22 | a 200-character title is accepted; a 201-character title gets exactly the too-long message; an empty title gets TITLE_REQUIRED |
| CourseSchemas.SlugAcceptedIff | lib/validation/courseSchemas.ts:13-17 | a slug is accepted iff its length is 1..100 and every character is in `[a-z0-9-]` |
| CourseSchemas.FieldMessagesEmptyIff | lib/validation/courseSchemas.ts:33-51 | a field reports no issue exactly when its declarative rule accepts the value |
| CourseSchemas.FieldMessagesNonEmpty | lib/constants/validation.ts:4-23 | every message a field reports is a non-empty text, so REQUIRED is never needed as a fallback |
| CourseSchemas.SchemaIssuesEmptyIff | lib/validation/courseSchemas.ts:33-56 | a schema reports no issue exactly when all its field rules hold (create rules, or the partial rules plus a UUID id for update) |
| CourseSchemas.AsIssues | lib/validation/courseSchemas.ts:33-52 | every message of a field becomes an issue whose path is that field's key, in order |
| CourseSchemas.ObjectIssuePaths | lib/validation/courseSchemas.ts:33-56 | every issue of an object has a one-segment path naming a schema key |
| CourseSchemas.PathsAppend | lib/validation/courseSchemas.ts:33-52 | concatenating issue lists whose paths name schema keys keeps that property |
| CourseSchemas.ParseCreate | lib/validation/courseSchemas.ts:33-52 | parsing succeeds iff the create rules hold; on failure it returns the full, non-empty issue list; on success the record respects every bound and carries the input's title, slug, description, cover_image_url and duration (null or absent text as in the input), level defaults to beginner and is_published to false |
| CourseSchemas.ParseUpdate | lib/validation/courseSchemas.ts:54-56 | parsing succeeds iff the update rules hold; on success the id is the input's, the record respects the bounds of the fields present, title, slug, level and is_published are present exactly when supplied (no defaults) and then hold the supplied values, and description, cover_image_url and duration are the input's |
| CourseSchemas.FieldIssuesIgnoreKey | lib/validation/courseSchemas.ts:33-52 | setting a property other than a field's own key leaves that field's issues unchanged |
| CourseSchemas.ObjectIssuesIgnoreKey | lib/validation/courseSchemas.ts:33-56 | setting a property outside the shape leaves the object's issues unchanged |
| CourseSchemas.ParseCreateIgnoresKey | lib/validation/courseSchemas.ts:33-52 | unknown keys are stripped: setting one does not change the create parse |
| CourseSchemas.ParseUpdateIgnoresKey | lib/validation/courseSchemas.ts:54-56 | unknown keys are stripped: setting one does not change the update parse |
| CourseValidators.FormatIssues | lib/services/course/courseValidators.ts:15-17 | one formatted string per issue, in order, each `path.join('.') + ": " + message` |
| CourseValidators.AggregateMessage | lib/services/course/courseValidators.ts:15-21 | the aggregated message starts with "Ошибка валидации: " |
| CourseValidators.FromParse | lib/services/course/courseValidators.ts:11-31 | success iff the parse succeeded; success carries the data and no error; failure carries no data and the aggregated message of the issues |
| CourseValidators.ValidateCreateData | lib/services/course/courseValidators.ts:11-31 | success iff the create rules hold; on success the data is the parsed record, so it respects the bounds and carries the input's title and slug; on failure data is null and the error is the prefix followed by every issue |
| CourseValidators.ValidateUpdateData | lib/services/course/courseValidators.ts:36-56 | the same shape judged against the update rules; the data is the parsed update record and carries the input's id |
| CourseValidators.SingleFieldMessage | lib/services/course/courseValidators.ts:15-21 | one failed field reads "Ошибка валидации: <key>: <message>" |
| CourseValidators.GenerateErrorMessage | lib/services/course/courseValidators.ts:61-67 | code 23505 gives the slug-exists message whatever the operation; otherwise the error's message if non-empty, else "Неизвестная ошибка при <operation> курса"; never empty |
| CourseQueries.WithIdUnique | lib/services/course/courseQueries.ts:18-24 | under unique ids, a filter by id sees at most one row, and exactly one when the id is taken |
| CourseQueries.WithSlugUnique | lib/services/course/courseQueries.ts:26-32 | under unique slugs, a filter by slug sees at most one row, and exactly one when the slug is taken |
| CourseQueries.WithIdIsThatRow | lib/services/course/courseQueries.ts:18-24 | under unique ids, the row a filter by id finds is the row holding that id |
| CourseQueries.PrecedesTotal | lib/services/course/courseQueries.ts:11-16 | of two rows, one may always come first under either ordering |
| CourseQueries.InsertOrderedPermutation | lib/services/course/courseQueries.ts:11-16 | placing a row into a list adds exactly that row |
| CourseQueries.InsertOrderedSorted | lib/services/course/courseQueries.ts:11-16 | placing a row into a sorted list keeps it sorted |
| CourseQueries.SortBySortedPermutation | lib/services/course/courseQueries.ts:11-16 | ordering the rows gives the same rows in the requested order |
| CourseQueries.Single | lib/services/course/courseQueries.ts:18-24 | `.single()` returns the row iff exactly one matched, else the single-row error and no data |
| CourseQueries.SelectAllResult | lib/services/course/courseQueries.ts:11-16 | every row, no error, ordered by created_at descending |
| CourseQueries.SelectPublishedResult | lib/services/course/courseQueries.ts:34-41 | exactly the published rows, ordered by order_index ascending, then created_at descending |
| CourseQueries.PublishedListingMembers | lib/services/course/courseQueries.ts:34-41 | a row is listed iff it is in the table and published |
| CourseQueries.SelectByIdResult | lib/services/course/courseQueries.ts:18-24 | the row with that id, or the single-row error and no data; under unique ids, found iff the id is taken |
| CourseQueries.SelectBySlugResult | lib/services/course/courseQueries.ts:26-32 | the row with that slug, or the single-row error and no data; under unique slugs, found iff the slug is taken |
| CourseQueries.InsertStep | lib/services/course/courseQueries.ts:46-55 | succeeds iff the id and the slug are free; on success exactly one row is appended, with order_index 0, and returned; a clash reports 23505 and changes nothing; the unique constraints are kept |
| CourseQueries.UpdateStep | lib/services/course/courseQueries.ts:57-67 | an error changes nothing and returns no data; success merges the rows with that id |
| CourseQueries.UpdateStepOutcome | lib/services/course/courseQueries.ts:57-67 | under unique ids, succeeds iff the row exists and no other row holds the new slug; a missing row gives the single-row error; a slug clash gives 23505 |
| CourseQueries.UpdateStepChangesOnlyThatRow | lib/services/course/courseQueries.ts:57-67 | a successful update overwrites the supplied fields of that row only, sets updated_at, leaves absent fields and every other row as they were, and returns that row |
| CourseQueries.UpdateStepKeepsConstraints | lib/services/course/courseQueries.ts:57-67 | an update keeps ids and slugs unique |
| CourseQueries.DeleteStep | lib/services/course/courseQueries.ts:69-74 | no data and no error; the rows with that id are gone, every other row stays; an absent id changes nothing |
| CourseQueries.DeletePreservesConstraints | lib/services/course/courseQueries.ts:69-74 | a delete keeps ids and slugs unique |
| CourseQueries.FilterKeepsUnique | lib/services/course/courseQueries.ts:69-74 | any filter of rows with unique ids and slugs keeps them unique |
| CourseQueries.TogglePublishStep | lib/services/course/courseQueries.ts:76-86 | on success the row with that id has is_published set to the flag and a fresh updated_at, every other field kept, and that stored row is returned; otherwise the single-row error and no change |
| CourseQueries.TogglePublishStepKeepsConstraints | lib/services/course/courseQueries.ts:76-86 | toggling keeps ids and slugs unique and succeeds iff the row exists |
| CourseQueries.TogglePublishTwice | lib/services/course/courseQueries.ts:76-86 | toggling twice with the same flag gives the same row as once, with only updated_at moved on |
| CourseQueries.CourseTable.constructor | lib/services/course/courseQueries.ts:5-6 | a table over rows that keep the unique constraints |
| CourseQueries.CourseTable.SelectAll | lib/services/course/courseQueries.ts:11-16 | answers SelectAllResult: every row, newest first |
| CourseQueries.CourseTable.SelectById | lib/services/course/courseQueries.ts:18-24 | answers SelectByIdResult; found iff the id is taken |
| CourseQueries.CourseTable.SelectBySlug | lib/services/course/courseQueries.ts:26-32 | answers SelectBySlugResult; found iff the slug is taken |
| CourseQueries.CourseTable.SelectPublished | lib/services/course/courseQueries.ts:34-41 | answers SelectPublishedResult |
| CourseQueries.CourseTable.Insert | lib/services/course/courseQueries.ts:46-55 | the table becomes InsertStep of the old rows and keeps its constraints |
| CourseQueries.CourseTable.Update | lib/services/course/courseQueries.ts:57-67 | the table becomes UpdateStep of the old rows and keeps its constraints |
| CourseQueries.CourseTable.Delete | lib/services/course/courseQueries.ts:69-74 | the table becomes DeleteStep of the old rows and keeps its constraints |
| CourseQueries.CourseTable.TogglePublish | lib/services/course/courseQueries.ts:76-86 | the table becomes TogglePublishStep of the old rows and keeps its constraints |
| CourseService.SuccessResponse | lib/services/course/CourseService.ts:212-214 | success, no error, the given data; well-formed |
| CourseService.ErrorResponse | lib/services/course/CourseService.ts:216-218 | failure, the given error, no data; well-formed |
| CourseService.UnexpectedErrorResponse | lib/services/course/CourseService.ts:220-226 | failure whose message is the thrown Error's message, else "Unknown error" |
| CourseService.ListEnvelope | lib/services/course/CourseService.ts:20-34 | the backend's message on error, else success with `data || []` |
| CourseService.RowEnvelope | lib/services/course/CourseService.ts:39-53 | the backend's message on error, else success with its data |
| CourseService.WriteEnvelope | lib/services/course/CourseService.ts:92-102 | a write error is reported through generateErrorMessage, else success with the written row |
| CourseService.GetCoursesResult | lib/services/course/CourseService.ts:20-34 | success with every row, newest first |
| CourseService.GetPublishedCoursesResult | lib/services/course/CourseService.ts:173-187 | success with exactly the published rows, in the published order |
| CourseService.GetCourseByIdResult | lib/services/course/CourseService.ts:39-53 | success with the row holding that id, else the single-row error; under unique ids, success iff the id is taken |
| CourseService.GetCourseBySlugResult | lib/services/course/CourseService.ts:58-72 | success with the row holding that slug, else the single-row error; under unique slugs, success iff the slug is taken |
| CourseService.CreateCourseStep | lib/services/course/CourseService.ts:77-107 | well-formed; a failure changes nothing; invalid input reports the validator's message; unique ids and slugs stay unique |
| CourseService.UpdateCourseStep | lib/services/course/CourseService.ts:112-148 | well-formed; a failure changes nothing; invalid input reports the validator's message |
| CourseService.DeleteCourseStep | lib/services/course/CourseService.ts:153-168 | success with no data; the rows with that id are gone and every other row stays |
| CourseService.ToggleCoursePublishStep | lib/services/course/CourseService.ts:192-207 | on success the table has the row with that id published or unpublished and a fresh updated_at, and the envelope carries that stored row with its other fields kept; on failure the single-row error and no change |
| CourseService.EmptyTableSlugLookup | lib/services/course/CourseService.ts:86-89 | a slug lookup that finds nothing fails, and that failure does not block a create |
| CourseService.SlugInUseExact | lib/services/course/CourseService.ts:86-89 | under unique slugs, the create path's advance check fires iff the slug is taken |
| CourseService.SlugInUseByOtherExact | lib/services/course/CourseService.ts:121-127 | under unique slugs, the update path's check fires iff a row with another id holds the slug |
| CourseService.CreateCourseOutcome | lib/services/course/CourseService.ts:77-107 | for valid input: success iff slug and id are free; a taken slug or id gives the slug-exists message and no insert; success appends the new row with order_index 0 and returns it |
| CourseService.CreateThenGetById | lib/services/course/CourseService.ts:39-53 | a course that was created is found by its new id: the lookup returns the stored row with the input's fields, the new id and order_index 0 |
| CourseService.CreateIgnoresOrderIndex | lib/services/course/CourseService.ts:80-92 | whatever the input says about order_index, createCourse does the same |
| CourseService.UpdateCourseOutcome | lib/services/course/CourseService.ts:112-148 | for valid input: success iff the row exists and no other course holds the slug; a conflict gives the slug-exists message; a missing row gives the single-row error; success merges the row |
| CourseService.UpdateKeepingOwnSlug | lib/services/course/CourseService.ts:121-127 | saving a course with its own slug is not a conflict: it succeeds |
| CourseService.UpdateCourseKeepsConstraints | lib/services/course/CourseService.ts:112-148 | updateCourse keeps ids and slugs unique |
| CourseService.CreateCourseKeepsStored | lib/services/course/CourseService.ts:77-107 | with a UUID for the new row, createCourse keeps every row within the stored-course schema |
| CourseService.NewRowStored | lib/validation/courseSchemas.ts:58-63 | a row built from a valid create record and a UUID satisfies the stored-course schema, order_index >= 0 included |
| CourseService.UpdateCourseKeepsStored | lib/services/course/CourseService.ts:112-148 | updateCourse keeps every row within the stored-course schema |
| CourseService.MergeKeepsStored | lib/services/course/courseQueries.ts:57-67 | merging a valid update record into rows that satisfy the stored-course schema keeps them within it |
| CourseService.CourseService.constructor | lib/services/course/CourseService.ts:8 | the service works on the given table |
| CourseService.CourseService.GetCourses | lib/services/course/CourseService.ts:20-34 | answers GetCoursesResult of the table |
| CourseService.CourseService.GetCourseById | lib/services/course/CourseService.ts:39-53 | answers GetCourseByIdResult of the table |
| CourseService.CourseService.GetCourseBySlug | lib/services/course/CourseService.ts:58-72 | answers GetCourseBySlugResult of the table |
| CourseService.CourseService.GetPublishedCourses | lib/services/course/CourseService.ts:173-187 | answers GetPublishedCoursesResult of the table |
| CourseService.CourseService.CreateCourse | lib/services/course/CourseService.ts:77-107 | the envelope and the new table are CreateCourseStep of the old rows |
| CourseService.CourseService.UpdateCourse | lib/services/course/CourseService.ts:112-148 | the envelope and the new table are UpdateCourseStep of the old rows |
| CourseService.CourseService.DeleteCourse | lib/services/course/CourseService.ts:153-168 | the envelope and the new table are DeleteCourseStep of the old rows |
| CourseService.CourseService.ToggleCoursePublish | lib/services/course/CourseService.ts:192-207 | the envelope and the new table are ToggleCoursePublishStep of the old rows |
| CourseService.ServiceRegistry.constructor | lib/services/course/CourseService.ts:7 | the instance slot starts empty |
| CourseService.ServiceRegistry.GetInstance | lib/services/course/CourseService.ts:10-15 | the first call creates and stores a service; later calls return the stored one |
| ToastProvider.ToastReducer | components/ui/ToastProvider/ToastProvider.tsx:14-25 | add appends the payload after the old list; remove keeps exactly the toasts with another id; clear gives []; any other action leaves the state |
| ToastProvider.RemoveAbsent | components/ui/ToastProvider/ToastProvider.tsx:18-19 | removing an id no toast carries leaves the list unchanged |
| ToastProvider.RemoveKeepsOrder | components/ui/ToastProvider/ToastProvider.tsx:18-19 | removal works piecewise on any split of the list, so the survivors keep their order |
| ToastProvider.RemoveCounts | components/ui/ToastProvider/ToastProvider.tsx:18-19 | removal drops every copy of a toast with that id and keeps every copy of the others |
| ToastProvider.AddThenRemove | components/ui/ToastProvider/ToastProvider.tsx:16-19 | adding a toast with a fresh id and then removing that id restores the list |
| ToastProvider.RemoveTwice | components/ui/ToastProvider/ToastProvider.tsx:18-19 | removing the same id twice is removing it once |
| ToastProvider.EffectiveDuration | components/ui/ToastProvider/ToastProvider.tsx:39 | an absent or zero duration becomes 5000; any other is kept |
| ToastProvider.NewToast | components/ui/ToastProvider/ToastProvider.tsx:35-40 | the new toast keeps the draft's fields, carries the given id, and has the effective duration |
| ToastProvider.RemovalDelay | components/ui/ToastProvider/ToastProvider.tsx:45-49 | no removal timer iff the duration is Infinity; otherwise the timer's delay is the duration |
| ToastProvider.ToastList.constructor | components/ui/ToastProvider/ToastProvider.tsx:32 | the list starts empty |
| ToastProvider.ToastList.Add | components/ui/ToastProvider/ToastProvider.tsx:34-50 | appends the new toast and returns the removal delay, 5000 when no duration is given |
| ToastProvider.ToastList.Remove | components/ui/ToastProvider/ToastProvider.tsx:52-54 | the list becomes the reducer's REMOVE_TOAST result |
| ToastProvider.ToastList.Clear | components/ui/ToastProvider/ToastProvider.tsx:56-58 | the list becomes empty |
| SlugGenerator.Lower | app/admin/courses/hooks/useCourseForm.ts:160 | a lower-cased character is not upper-case; lower-case characters are kept; a Russian letter stays a Russian letter |
| SlugGenerator.DropSpaces | app/admin/courses/hooks/useCourseForm.ts:162 | the leading white space goes; every other character is kept |
| SlugGenerator.SpacesToHyphens | app/admin/courses/hooks/useCourseForm.ts:162 | no white space remains; each output character is a hyphen or comes from the input; every non-space input character survives |
| SlugGenerator.DropHyphens | app/admin/courses/hooks/useCourseForm.ts:163 | the leading hyphens go; every other character is kept |
| SlugGenerator.CollapseHyphens | app/admin/courses/hooks/useCourseForm.ts:163 | no two hyphens in a row remain; every other character survives; empty iff the input is empty |
| SlugGenerator.TrimWithoutSpaces | app/admin/courses/hooks/useCourseForm.ts:164 | trimming a string with no white space changes nothing |
| SlugGenerator.GenerateSlug | app/admin/courses/hooks/useCourseForm.ts:158-165 | every character of the slug is in `[a-z0-9а-яё-]` and not upper-case, there is no white space, and no two hyphens are adjacent |
| SlugGenerator.SpacesToHyphensWordChars | app/admin/courses/hooks/useCourseForm.ts:162 | the whitespace pass keeps every character that is neither white space nor a hyphen, in order |
| SlugGenerator.CollapseHyphensWordChars | app/admin/courses/hooks/useCourseForm.ts:163 | the hyphen pass keeps every character that is neither white space nor a hyphen, in order |
| SlugGenerator.GenerateSlugWordChars | app/admin/courses/hooks/useCourseForm.ts:158-165 | apart from hyphens, the slug is exactly the lower-cased title with the characters outside `[a-z0-9а-яё]` and white space removed, in the title's order |
| SlugGenerator.KeptCharSurvives | app/admin/courses/hooks/useCourseForm.ts:158-165 | every title character that lower-cases to a Latin letter, digit or Russian letter appears in the slug |
| SlugGenerator.CyrillicSurvives | app/admin/courses/hooks/useCourseForm.ts:158-165 | a Russian letter in the title leaves a lower-case Russian letter in the slug |
| SlugGenerator.SpacesToHyphensWithoutSpaces | app/admin/courses/hooks/useCourseForm.ts:162 | the whitespace pass leaves a string without white space unchanged |
| SlugGenerator.CollapseWithoutDoubles | app/admin/courses/hooks/useCourseForm.ts:163 | the hyphen pass leaves a string without double hyphens unchanged |
| SlugGenerator.GenerateSlugIdempotent | app/admin/courses/hooks/useCourseForm.ts:158-165 | a generated slug is its own slug |
| CourseForm.InitialFormData | app/admin/courses/hooks/useCourseForm.ts:61-85 | editing a given course starts from its fields (null columns as `''`); otherwise the empty create record |
| CourseForm.ValidateField | app/admin/courses/hooks/useCourseForm.ts:88-98 | null iff the key is not in the schema or the field accepts the value; otherwise the field's first issue message, which is never empty |
| CourseForm.ErrorTextEmptyIff | app/admin/courses/hooks/useCourseForm.ts:88-98 | `validateField(...) \|\| ''` is empty exactly when the field accepts the value |
| CourseForm.ChangeErrors | app/admin/courses/hooks/useCourseForm.ts:116-123 | a flagged field is revalidated: its entry is empty iff accepted and otherwise the field's first message; an unflagged field leaves the map as it was; other entries never change |
| CourseForm.BlurErrors | app/admin/courses/hooks/useCourseForm.ts:148-156 | the field's entry is always written: empty iff accepted, otherwise the field's first message; other entries never change |
| CourseForm.TitleChangeErrors | app/admin/courses/hooks/useCourseForm.ts:181-189 | the title and slug entries are both written, each empty iff that field accepts its new value and otherwise that field's first message; other entries never change |
| CourseForm.TitleErrorEmptyIff | app/admin/courses/hooks/useCourseForm.ts:182-187 | the title entry a title change writes is empty iff the title is accepted, and otherwise the title's first message |
| CourseForm.SlugErrorEmptyIff | app/admin/courses/hooks/useCourseForm.ts:183-188 | the slug entry a title change writes is empty iff the slug is accepted, and otherwise the slug's first message |
| CourseForm.RussianTitleFlagsSlug | app/admin/courses/hooks/useCourseForm.ts:167-190 | a title with a Russian letter always leaves a non-empty slug error |
| CourseForm.ErrorsOfKeys | app/admin/courses/hooks/useCourseForm.ts:197-203 | the error map has an entry exactly for the first path segments that some issue carries |
| CourseForm.ErrorsOfLastWins | app/admin/courses/hooks/useCourseForm.ts:197-203 | each entry holds the message of the last issue filed under that field |
| CourseForm.ErrorsOfSnoc | app/admin/courses/hooks/useCourseForm.ts:198-203 | one more issue is one more step of the forEach |
| CourseForm.CollectErrors | app/admin/courses/hooks/useCourseForm.ts:197-203 | the forEach loop builds exactly the map of the fold over the issues |
| CourseForm.FormIssuesEmptyIff | app/admin/courses/hooks/useCourseForm.ts:192-196 | validateForm finds no issue exactly when the form satisfies its mode's rules |
| CourseForm.FormIssuePaths | app/admin/courses/hooks/useCourseForm.ts:192-203 | every issue of a form has a one-segment path naming a schema key |
| CourseForm.FlaggedFieldsOf | app/admin/courses/hooks/useCourseForm.ts:197-203 | folding issues at schema keys gives entries only for schema keys, and at least one entry when there is an issue |
| CourseForm.FailedFormFlagsFields | app/admin/courses/hooks/useCourseForm.ts:192-206 | a form that fails validation gets at least one entry, and every entry names a schema field |
| CourseForm.EmptyCoverFailsValidation | app/admin/courses/hooks/useCourseForm.ts:70-82 | a form whose cover URL is `''` fails validation in either mode |
| CourseForm.EmptyFormValues | app/admin/courses/hooks/useCourseForm.ts:76-84 | the values of the empty create record |
| CourseForm.EmptyFormMessages | app/admin/courses/hooks/useCourseForm.ts:76-84 | the empty create record's messages per field: title required, slug too short and off-pattern, cover not a URL, others none |
| CourseForm.EmptyFormIssues | app/admin/courses/hooks/useCourseForm.ts:192-196 | validating the empty create record reports those four issues in that order |
| CourseForm.EmptyFormIssueFold | app/admin/courses/hooks/useCourseForm.ts:197-203 | folding those four issues gives the title, slug (pattern message) and cover entries |
| CourseForm.EmptyFormErrors | app/admin/courses/hooks/useCourseForm.ts:192-206 | validateForm on the fresh create form flags title, slug and cover, with the pattern message under slug |
| CourseForm.AcceptedCreateFormIsValid | app/admin/courses/hooks/useCourseForm.ts:208-213 | a create form that passes validateForm is valid: cleared errors, non-empty title and slug |
| CourseForm.ValidFormHasTitleAndSlug | app/admin/courses/hooks/useCourseForm.ts:212-213 | a valid form has no flagged entry and a non-empty title and slug |
| CourseForm.CourseFormState.constructor | app/admin/courses/hooks/useCourseForm.ts:54-85 | the initial record, no errors, not dirty, not saving; loading iff editing without data |
| CourseForm.CourseFormState.HandleChange | app/admin/courses/hooks/useCourseForm.ts:100-124 | only the named value changes (a checkbox stores its flag); errors become ChangeErrors; dirty |
| CourseForm.CourseFormState.HandleTextareaChange | app/admin/courses/hooks/useCourseForm.ts:127-146 | only the named text changes; errors become ChangeErrors; dirty |
| CourseForm.CourseFormState.HandleBlur | app/admin/courses/hooks/useCourseForm.ts:148-156 | errors become BlurErrors; nothing else changes |
| CourseForm.CourseFormState.HandleTitleChange | app/admin/courses/hooks/useCourseForm.ts:167-190 | title and slug = generateSlug(title) are set together; errors become TitleChangeErrors; dirty |
| CourseForm.CourseFormState.HasErrors | app/admin/courses/hooks/useCourseForm.ts:212 | true iff some error entry is a non-empty string |
| CourseForm.CourseFormState.IsFormValid | app/admin/courses/hooks/useCourseForm.ts:213 | true iff there are no errors and the title and slug are truthy; then both are present and not empty strings (as ValidFormHasTitleAndSlug states, and AcceptedCreateFormIsValid reaches after a passing validateForm) |
| CourseForm.CourseFormState.ValidateForm | app/admin/courses/hooks/useCourseForm.ts:192-210 | returns true iff the form passes its mode's rules; true clears the errors; false stores the fold of the issues |
| CourseForm.CourseFormState.SetFormErrors | app/admin/courses/hooks/useCourseForm.ts:56 | sets the errors only |
| CourseForm.CourseFormState.SetServerError | app/admin/courses/hooks/useCourseForm.ts:57 | sets the server error only |
| CourseForm.CourseFormState.SetIsLoading | app/admin/courses/hooks/useCourseForm.ts:54 | sets the loading flag only |
| NewCourseForm.ResetFormNotSubmittable | app/admin/courses/new/hooks/useCourseForm.ts:163-179 | the reset record is not a valid form, fails the create rules, and validateForm flags exactly title, slug and cover |
| NewCourseForm.NewCourseFormState.constructor | app/admin/courses/new/hooks/useCourseForm.ts:45-58 | the empty create record, no errors, not loading, no server error, not dirty |
| NewCourseForm.NewCourseFormState.HandleChange | app/admin/courses/new/hooks/useCourseForm.ts:72-97 | only the named value changes; errors become ChangeErrors under the create rules; dirty |
| NewCourseForm.NewCourseFormState.HandleBlur | app/admin/courses/new/hooks/useCourseForm.ts:100-108 | errors become BlurErrors under the create rules; nothing else changes |
| NewCourseForm.NewCourseFormState.HandleTitleChange | app/admin/courses/new/hooks/useCourseForm.ts:119-142 | title and slug = generateSlug(title) set together; errors become TitleChangeErrors; dirty |
| NewCourseForm.NewCourseFormState.HasErrors | app/admin/courses/new/hooks/useCourseForm.ts:178 | true iff some error entry is a non-empty string |
| NewCourseForm.NewCourseFormState.IsFormValid | app/admin/courses/new/hooks/useCourseForm.ts:179 | true iff there are no errors and the title and slug are truthy; then both are present and not empty strings |
| NewCourseForm.NewCourseFormState.ValidateForm | app/admin/courses/new/hooks/useCourseForm.ts:144-161 | returns true iff the form passes the create rules; true clears the errors; false stores the fold of the issues |
| NewCourseForm.NewCourseFormState.ResetForm | app/admin/courses/new/hooks/useCourseForm.ts:163-176 | the empty create record, no errors, no server error, not dirty; loading untouched |
| NewCourseForm.NewCourseFormState.SetFormErrors | app/admin/courses/new/hooks/useCourseForm.ts:46 | sets the errors only |
| NewCourseForm.NewCourseFormState.SetServerError | app/admin/courses/new/hooks/useCourseForm.ts:47 | sets the server error only |
| NewCourseForm.NewCourseFormState.SetIsLoading | app/admin/courses/new/hooks/useCourseForm.ts:45 | sets the loading flag only |
| CoursesList.ErrorOr | app/admin/courses/hooks/useCoursesList.ts:29 | `error \|\| fallback`: a non-empty error is kept, an absent or empty one gives the fallback |
| CoursesList.WithoutIdCounts | app/admin/courses/hooks/useCoursesList.ts:44 | the local removal drops every copy of a course with that id and keeps every copy of the others |
| CoursesList.DeleteKeepsListInStep | app/admin/courses/hooks/useCoursesList.ts:39-45 | a fetched list trimmed after a successful delete holds the same courses as the table after that delete |
| CoursesList.CoursesListState.constructor | app/admin/courses/hooks/useCoursesList.ts:15-17 | no courses, loading, no error |
| CoursesList.CoursesListState.FetchCourses | app/admin/courses/hooks/useCoursesList.ts:19-37 | success with data replaces the list and leaves no error; a failure keeps the list and sets the message or "Не удалось загрузить курсы"; a throw sets "Произошла непредвиденная ошибка"; loading ends in every case |
| CoursesList.CoursesListState.DeleteCourse | app/admin/courses/hooks/useCoursesList.ts:39-55 | true iff the call returned success, and then the courses with that id are filtered out in order; a failure keeps the list and sets the message or "Не удалось удалить курс"; a throw sets "Произошла непредвиденная ошибка при удалении" |

## Left out

- The Supabase client and the network. `courseQueries` is an in-memory table. The text of the single-row error (PostgREST's PGRST116) and of the 23505 error are the backend's, not the repository's.
- async/await and the check-then-insert race between concurrent creates. Each service call is one sequential step.
- Thrown exceptions inside the service. The model's table never throws, so the `catch` branches of `CourseService` are reached only through `UnexpectedErrorResponse`, which is modelled on its own. The list hook receives a `Call` that may be `Threw`, so its `catch` branches are modelled.
- URL and UUID checking. `.url()` is approximated as "a scheme followed by `:`", without WHATWG host parsing. `.uuid()` is the 8-4-4-4-12 hexadecimal layout.
- String lengths count characters, not UTF-16 code units. A title with characters outside the Basic Multilingual Plane is measured differently.
- `toLowerCase` in `generateSlug` is modelled only for ASCII `A`-`Z` and the Cyrillic capitals U+0400-U+042F. Other scripts are left as they are.
- ToastProvider.EffectiveDuration: durations are integers. A `NaN` duration, which `||` would also replace with 5000, and fractional durations are not modelled.
- The `setTimeout` auto-removal of a toast runs no timer. `ToastList.Add` returns the delay it would use.
- Timestamps (`new Date().toISOString()`), database-generated ids and random toast ids are parameters.
- Console logging, the UI constants returned by the hooks (placeholders, help texts, button labels), and all presentation components.
- CourseService.CreateCourseStep: the full case analysis is stated for tables that keep their constraints and for valid input (`CourseService.CreateCourseOutcome`). For other tables only well-formedness, "failure changes nothing" and the validator message are stated.
- CourseService.UpdateCourseStep: likewise, the case analysis is in `CourseService.UpdateCourseOutcome`, which requires unique ids and slugs.
