/** The field rules of a course (lib/validation/courseSchemas.ts), with the
    limits and messages they use (lib/constants/app.ts,
    lib/constants/validation.ts).

    A schema is modelled twice: as the list of issues zod reports for an
    object (fields in shape order, each field's checks in the order they are
    declared, every failing check reported), and as a declarative predicate
    saying which objects are accepted. `ParseCreate`/`ParseUpdate` tie the two
    together. */
module CourseSchemas {
  import opened JsValues

  // DATA_LIMITS
  const TitleMax: nat := 200
  const DescriptionMax: nat := 1000
  const SlugMax: nat := 100
  const DurationMax: nat := 50

  // VALIDATION_MESSAGES
  const RequiredMsg := "Поле обязательно для заполнения"
  const InvalidUrlMsg := "Введите корректный URL"
  const InvalidSlugMsg := "Может содержать только латинские буквы, цифры и дефисы"
  const TitleRequiredMsg := "Название курса обязательно"
  const SlugRequiredMsg := "URL-адрес обязателен"
  const SlugUniqueMsg := "Курс с таким URL-адресом уже существует"
  const InvalidLevelMsg := "Неверный уровень сложности"

  /** VALIDATION_MESSAGES.TOO_LONG(field, max). */
  function TooLong(field: string, max: nat): string {
    "Слишком длинный " + field + ". Максимум " + NatToString(max) + " символов"
  }

  /** The message of a too-long title, written out. */
  lemma TitleTooLongText()
    ensures TooLong("название", TitleMax) == "Слишком длинный название. Максимум 200 символов"
  {
  }

  // zod's own messages for a missing key and for a value of the wrong type
  const ZodRequiredMsg := "Required"

  function InvalidTypeMsg(expected: string, received: Json): string {
    "Expected " + expected + ", received " + TypeName(received)
  }

  // COURSE_LEVELS
  datatype Level = Beginner | Intermediate | Advanced

  function LevelName(l: Level): string {
    match l
    case Beginner => "beginner"
    case Intermediate => "intermediate"
    case Advanced => "advanced"
  }

  function ParseLevel(s: string): (r: Option<Level>)
    ensures r.Some? ==> LevelName(r.value) == s
    ensures r.None? ==> forall l :: LevelName(l) != s
  {
    if s == "beginner" then Some(Beginner)
    else if s == "intermediate" then Some(Intermediate)
    else if s == "advanced" then Some(Advanced)
    else None
  }

  /** A stored course (the `Course` type inferred from `courseSchema`).
      Timestamps are abstract instants of a clock. */
  datatype Course = Course(
    id: string,
    title: string,
    description: Option<string>,
    slug: string,
    coverImageUrl: Option<string>,
    duration: Option<string>,
    level: Level,
    orderIndex: int,
    isPublished: bool,
    createdAt: nat,
    updatedAt: nat)

  /** The output of `courseCreateSchema`: defaults filled in. */
  datatype CreateInput = CreateInput(
    title: string,
    description: Nullish<string>,
    slug: string,
    coverImageUrl: Nullish<string>,
    duration: Nullish<string>,
    level: Level,
    isPublished: bool)

  /** The output of `courseUpdateSchema`: every field but `id` may be absent. */
  datatype UpdateInput = UpdateInput(
    id: string,
    title: Option<string>,
    description: Nullish<string>,
    slug: Option<string>,
    coverImageUrl: Nullish<string>,
    duration: Nullish<string>,
    level: Option<Level>,
    isPublished: Option<bool>)

  /** A zod issue: the path to the offending value and its message. */
  datatype Issue = Issue(path: seq<string>, message: string)

  /** The keys of the course schemas, in shape order. */
  datatype Field =
    | TitleKey | DescriptionKey | SlugKey | CoverImageUrlKey
    | DurationKey | LevelKey | IsPublishedKey | IdKey

  function Key(f: Field): string {
    match f
    case TitleKey => "title"
    case DescriptionKey => "description"
    case SlugKey => "slug"
    case CoverImageUrlKey => "cover_image_url"
    case DurationKey => "duration"
    case LevelKey => "level"
    case IsPublishedKey => "is_published"
    case IdKey => "id"
  }

  /** The field a property name denotes, if any. */
  function FieldOfKey(name: string): (r: Option<Field>)
    ensures r.Some? ==> Key(r.value) == name
    ensures r.None? ==> forall f :: Key(f) != name
  {
    if name == "title" then Some(TitleKey)
    else if name == "description" then Some(DescriptionKey)
    else if name == "slug" then Some(SlugKey)
    else if name == "cover_image_url" then Some(CoverImageUrlKey)
    else if name == "duration" then Some(DurationKey)
    else if name == "level" then Some(LevelKey)
    else if name == "is_published" then Some(IsPublishedKey)
    else if name == "id" then Some(IdKey)
    else None
  }

  /** Create mode uses `courseCreateSchema`; update mode `courseUpdateSchema`,
      which is the create schema made `.partial()` and extended with `id`. */
  datatype Mode = CreateMode | UpdateMode

  // ---------------------------------------------------------------------
  // Character-level rules

  /** VALIDATION_PATTERNS.SLUG, `^[a-z0-9-]+$`, one character at a time. */
  predicate IsSlugChar(c: char) {
    'a' <= c <= 'z' || '0' <= c <= '9' || c == '-'
  }

  predicate MatchesSlugPattern(s: string) {
    |s| >= 1 && forall i :: 0 <= i < |s| ==> IsSlugChar(s[i])
  }

  predicate IsHexDigit(c: char) {
    '0' <= c <= '9' || 'a' <= c <= 'f' || 'A' <= c <= 'F'
  }

  /** The 8-4-4-4-12 hexadecimal layout zod's `.uuid()` checks. */
  predicate IsUuid(s: string) {
    |s| == 36 &&
    forall i :: 0 <= i < 36 ==>
      if i == 8 || i == 13 || i == 18 || i == 23 then s[i] == '-' else IsHexDigit(s[i])
  }

  predicate IsAsciiLetter(c: char) {
    'a' <= c <= 'z' || 'A' <= c <= 'Z'
  }

  predicate IsSchemeChar(c: char) {
    IsAsciiLetter(c) || '0' <= c <= '9' || c == '+' || c == '-' || c == '.'
  }

  /** zod's `.url()`: the string parses as an absolute URL, i.e. it starts
      with a scheme (a letter, then letters, digits, `+`, `-` or `.`)
      followed by `:`. */
  predicate IsAbsoluteUrl(s: string) {
    |s| >= 2 && IsAsciiLetter(s[0]) && SchemeThenColon(s[1..])
  }

  predicate SchemeThenColon(t: string) {
    |t| > 0 && (t[0] == ':' || (IsSchemeChar(t[0]) && SchemeThenColon(t[1..])))
  }

  // ---------------------------------------------------------------------
  // Issues of one field (`v` is the property, `None` for undefined)

  /** titleSchema: a string, `.min(1)`, `.max(200)`. */
  function TitleMessages(v: Option<Json>): seq<string> {
    match v
    case None => [ZodRequiredMsg]
    case Some(JStr(s)) =>
      (if |s| < 1 then [TitleRequiredMsg] else []) +
      (if |s| > TitleMax then [TooLong("название", TitleMax)] else [])
    case Some(j) => [InvalidTypeMsg("string", j)]
  }

  /** slugSchema: a string, `.min(1)`, `.max(100)`, `.regex(SLUG)`. */
  function SlugMessages(v: Option<Json>): seq<string> {
    match v
    case None => [ZodRequiredMsg]
    case Some(JStr(s)) =>
      (if |s| < 1 then [SlugRequiredMsg] else []) +
      (if |s| > SlugMax then [TooLong("URL-адрес", SlugMax)] else []) +
      (if MatchesSlugPattern(s) then [] else [InvalidSlugMsg])
    case Some(j) => [InvalidTypeMsg("string", j)]
  }

  /** A string with `.max(max)`, `.nullable().optional()` (description, duration). */
  function BoundedTextMessages(v: Option<Json>, field: string, max: nat): seq<string> {
    match v
    case None => []
    case Some(JNull) => []
    case Some(JStr(s)) => if |s| > max then [TooLong(field, max)] else []
    case Some(j) => [InvalidTypeMsg("string", j)]
  }

  /** cover_image_url: a string with `.url()`, `.nullable().optional()`. */
  function CoverMessages(v: Option<Json>): seq<string> {
    match v
    case None => []
    case Some(JNull) => []
    case Some(JStr(s)) => if IsAbsoluteUrl(s) then [] else [InvalidUrlMsg]
    case Some(j) => [InvalidTypeMsg("string", j)]
  }

  /** levelSchema with `.default('beginner')`: its error map turns every
      failure into INVALID_LEVEL; undefined takes the default. */
  function LevelMessages(v: Option<Json>): seq<string> {
    match v
    case None => []
    case Some(JStr(s)) => if ParseLevel(s).Some? then [] else [InvalidLevelMsg]
    case Some(_) => [InvalidLevelMsg]
  }

  /** `z.boolean().default(false)`. */
  function IsPublishedMessages(v: Option<Json>): seq<string> {
    match v
    case None => []
    case Some(JBool(_)) => []
    case Some(j) => [InvalidTypeMsg("boolean", j)]
  }

  /** idSchema: a string with `.uuid(INVALID_LEVEL)` (the message is the
      level message, as in the source). */
  function IdMessages(v: Option<Json>): seq<string> {
    match v
    case None => [ZodRequiredMsg]
    case Some(JStr(s)) => if IsUuid(s) then [] else [InvalidLevelMsg]
    case Some(j) => [InvalidTypeMsg("string", j)]
  }

  /** The messages one field of a schema reports for the property `v`.
      In update mode every create field is `.optional()`, so undefined is
      accepted without running the field's checks (and without defaults). */
  function FieldMessages(mode: Mode, f: Field, v: Option<Json>): seq<string> {
    if mode == UpdateMode && f != IdKey && v.None? then []
    else
      match f
      case TitleKey => TitleMessages(v)
      case DescriptionKey => BoundedTextMessages(v, "описание", DescriptionMax)
      case SlugKey => SlugMessages(v)
      case CoverImageUrlKey => CoverMessages(v)
      case DurationKey => BoundedTextMessages(v, "продолжительность", DurationMax)
      case LevelKey => LevelMessages(v)
      case IsPublishedKey => IsPublishedMessages(v)
      case IdKey => if mode == UpdateMode then IdMessages(v) else []
  }

  function AsIssues(path: seq<string>, messages: seq<string>): (r: seq<Issue>)
    ensures |r| == |messages|
    ensures forall i :: 0 <= i < |r| ==> r[i] == Issue(path, messages[i])
  {
    if messages == [] then [] else [Issue(path, messages[0])] + AsIssues(path, messages[1..])
  }

  /** The issues of one property of an object, each at path `[key]`. */
  function FieldIssues(mode: Mode, f: Field, o: map<string, Json>): seq<Issue> {
    AsIssues([Key(f)], FieldMessages(mode, f, Get(o, Key(f))))
  }

  /** The issues of an object: the fields in shape order (`id` last, as
      `.extend` appends it). */
  function ObjectIssues(mode: Mode, o: map<string, Json>): seq<Issue> {
    FieldIssues(mode, TitleKey, o) + FieldIssues(mode, DescriptionKey, o) +
    FieldIssues(mode, SlugKey, o) + FieldIssues(mode, CoverImageUrlKey, o) +
    FieldIssues(mode, DurationKey, o) + FieldIssues(mode, LevelKey, o) +
    FieldIssues(mode, IsPublishedKey, o) +
    (if mode == UpdateMode then FieldIssues(mode, IdKey, o) else [])
  }

  /** The issues `schema.safeParse(raw)` reports: one `invalid_type` issue
      at the root when `raw` is not an object, else the fields' issues. */
  function SchemaIssues(mode: Mode, raw: Json): seq<Issue> {
    if raw.JObject? then ObjectIssues(mode, raw.fields)
    else [Issue([], InvalidTypeMsg("object", raw))]
  }

  // ---------------------------------------------------------------------
  // The same rules, stated declaratively

  predicate TitleOk(v: Option<Json>) {
    v.Some? && v.value.JStr? && 1 <= |v.value.s| <= TitleMax
  }

  predicate SlugOk(v: Option<Json>) {
    v.Some? && v.value.JStr? && |v.value.s| <= SlugMax && MatchesSlugPattern(v.value.s)
  }

  predicate BoundedTextOk(v: Option<Json>, max: nat) {
    v.None? || v.value.JNull? || (v.value.JStr? && |v.value.s| <= max)
  }

  predicate CoverOk(v: Option<Json>) {
    v.None? || v.value.JNull? || (v.value.JStr? && IsAbsoluteUrl(v.value.s))
  }

  predicate LevelOk(v: Option<Json>) {
    v.None? || (v.value.JStr? && ParseLevel(v.value.s).Some?)
  }

  predicate IsPublishedOk(v: Option<Json>) {
    v.None? || v.value.JBool?
  }

  predicate IdOk(v: Option<Json>) {
    v.Some? && v.value.JStr? && IsUuid(v.value.s)
  }

  /** Whether field `f` accepts the property `v` in `mode`. */
  predicate FieldOk(mode: Mode, f: Field, v: Option<Json>) {
    if mode == UpdateMode && f != IdKey && v.None? then true
    else
      match f
      case TitleKey => TitleOk(v)
      case DescriptionKey => BoundedTextOk(v, DescriptionMax)
      case SlugKey => SlugOk(v)
      case CoverImageUrlKey => CoverOk(v)
      case DurationKey => BoundedTextOk(v, DurationMax)
      case LevelKey => LevelOk(v)
      case IsPublishedKey => IsPublishedOk(v)
      case IdKey => mode == CreateMode || IdOk(v)
  }

  /** courseCreateSchema accepts `o`. */
  predicate CreateRulesHold(o: map<string, Json>) {
    && TitleOk(Get(o, "title"))
    && BoundedTextOk(Get(o, "description"), DescriptionMax)
    && SlugOk(Get(o, "slug"))
    && CoverOk(Get(o, "cover_image_url"))
    && BoundedTextOk(Get(o, "duration"), DurationMax)
    && LevelOk(Get(o, "level"))
    && IsPublishedOk(Get(o, "is_published"))
  }

  /** courseUpdateSchema accepts `o`: `id` is mandatory, every other field
      is judged only when present. */
  predicate UpdateRulesHold(o: map<string, Json>) {
    && IdOk(Get(o, "id"))
    && ("title" in o ==> TitleOk(Get(o, "title")))
    && BoundedTextOk(Get(o, "description"), DescriptionMax)
    && ("slug" in o ==> SlugOk(Get(o, "slug")))
    && CoverOk(Get(o, "cover_image_url"))
    && BoundedTextOk(Get(o, "duration"), DurationMax)
    && LevelOk(Get(o, "level"))
    && IsPublishedOk(Get(o, "is_published"))
  }

  predicate RulesHold(mode: Mode, raw: Json) {
    raw.JObject? &&
    if mode == CreateMode then CreateRulesHold(raw.fields) else UpdateRulesHold(raw.fields)
  }

  // ---------------------------------------------------------------------
  // The issue lists and the predicates agree

  /** A field reports no issue exactly when it accepts the value. */
  lemma FieldMessagesEmptyIff(mode: Mode, f: Field, v: Option<Json>)
    ensures FieldMessages(mode, f, v) == [] <==> FieldOk(mode, f, v)
  {
  }

  /** Every message a field reports is a non-empty text. */
  lemma FieldMessagesNonEmpty(mode: Mode, f: Field, v: Option<Json>)
    ensures forall i :: 0 <= i < |FieldMessages(mode, f, v)| ==> FieldMessages(mode, f, v)[i] != ""
  {
    forall expected: string, received: Json ensures InvalidTypeMsg(expected, received) != "" {
      assert InvalidTypeMsg(expected, received)[0] == 'E';
    }
    forall field: string, max: nat ensures TooLong(field, max) != "" {
      assert TooLong(field, max)[0] == "Слишком"[0];
    }
  }

  /** A schema reports no issue exactly when its rules hold. */
  lemma SchemaIssuesEmptyIff(mode: Mode, raw: Json)
    ensures SchemaIssues(mode, raw) == [] <==> RulesHold(mode, raw)
  {
    if raw.JObject? {
      var o := raw.fields;
      FieldMessagesEmptyIff(mode, TitleKey, Get(o, "title"));
      FieldMessagesEmptyIff(mode, DescriptionKey, Get(o, "description"));
      FieldMessagesEmptyIff(mode, SlugKey, Get(o, "slug"));
      FieldMessagesEmptyIff(mode, CoverImageUrlKey, Get(o, "cover_image_url"));
      FieldMessagesEmptyIff(mode, DurationKey, Get(o, "duration"));
      FieldMessagesEmptyIff(mode, LevelKey, Get(o, "level"));
      FieldMessagesEmptyIff(mode, IsPublishedKey, Get(o, "is_published"));
      FieldMessagesEmptyIff(mode, IdKey, Get(o, "id"));
    }
  }

  /** Every issue in `s` points at one property named by the schema. */
  predicate PathsNameFields(s: seq<Issue>) {
    forall i :: 0 <= i < |s| ==> |s[i].path| == 1 && FieldOfKey(s[i].path[0]).Some?
  }

  lemma PathsAppend(a: seq<Issue>, b: seq<Issue>)
    requires PathsNameFields(a) && PathsNameFields(b)
    ensures PathsNameFields(a + b)
  {
    forall i | 0 <= i < |a + b|
      ensures |(a + b)[i].path| == 1 && FieldOfKey((a + b)[i].path[0]).Some?
    {
      if i >= |a| { assert (a + b)[i] == b[i - |a|]; }
    }
  }

  lemma KeyRoundTrip(f: Field)
    ensures FieldOfKey(Key(f)) == Some(f)
  {
  }

  /** The issues of an object always sit at a schema key, never at the root. */
  lemma ObjectIssuePaths(mode: Mode, o: map<string, Json>)
    ensures PathsNameFields(ObjectIssues(mode, o))
  {
    forall f: Field ensures PathsNameFields(FieldIssues(mode, f, o)) {
      KeyRoundTrip(f);
    }
    var acc := FieldIssues(mode, TitleKey, o);
    PathsAppend(acc, FieldIssues(mode, DescriptionKey, o));
    acc := acc + FieldIssues(mode, DescriptionKey, o);
    PathsAppend(acc, FieldIssues(mode, SlugKey, o));
    acc := acc + FieldIssues(mode, SlugKey, o);
    PathsAppend(acc, FieldIssues(mode, CoverImageUrlKey, o));
    acc := acc + FieldIssues(mode, CoverImageUrlKey, o);
    PathsAppend(acc, FieldIssues(mode, DurationKey, o));
    acc := acc + FieldIssues(mode, DurationKey, o);
    PathsAppend(acc, FieldIssues(mode, LevelKey, o));
    acc := acc + FieldIssues(mode, LevelKey, o);
    PathsAppend(acc, FieldIssues(mode, IsPublishedKey, o));
    acc := acc + FieldIssues(mode, IsPublishedKey, o);
    PathsAppend(acc, if mode == UpdateMode then FieldIssues(mode, IdKey, o) else []);
  }

  // ---------------------------------------------------------------------
  // Parsing

  /** A parsed create record respects the field bounds. */
  predicate ValidCreateInput(c: CreateInput) {
    && 1 <= |c.title| <= TitleMax
    && |c.slug| <= SlugMax && MatchesSlugPattern(c.slug)
    && (c.description.Defined? ==> |c.description.value| <= DescriptionMax)
    && (c.coverImageUrl.Defined? ==> IsAbsoluteUrl(c.coverImageUrl.value))
    && (c.duration.Defined? ==> |c.duration.value| <= DurationMax)
  }

  /** A parsed update record respects the bounds of the fields it carries. */
  predicate ValidUpdateInput(u: UpdateInput) {
    && IsUuid(u.id)
    && (u.title.Some? ==> 1 <= |u.title.value| <= TitleMax)
    && (u.slug.Some? ==> |u.slug.value| <= SlugMax && MatchesSlugPattern(u.slug.value))
    && (u.description.Defined? ==> |u.description.value| <= DescriptionMax)
    && (u.coverImageUrl.Defined? ==> IsAbsoluteUrl(u.coverImageUrl.value))
    && (u.duration.Defined? ==> |u.duration.value| <= DurationMax)
  }

  /** An accepted optional text property as zod outputs it. */
  function TextField(v: Option<Json>): Nullish<string> {
    match v
    case Some(JStr(s)) => Defined(s)
    case Some(JNull) => Null
    case _ => Undefined
  }

  /** `courseCreateSchema.safeParse(raw)`. Keys outside the shape (such as
      `order_index`) are dropped. */
  function ParseCreate(raw: Json): (r: Result<CreateInput, seq<Issue>>)
    ensures r.Ok? <==> RulesHold(CreateMode, raw)
    ensures r.Err? ==> r.error == SchemaIssues(CreateMode, raw) && |r.error| > 0
    ensures r.Ok? ==> ValidCreateInput(r.value)
    ensures r.Ok? ==> r.value.level == (if "level" in raw.fields then ParseLevel(raw.fields["level"].s).value else Beginner)
    ensures r.Ok? ==> r.value.isPublished == ("is_published" in raw.fields && raw.fields["is_published"].b)
    ensures r.Ok? ==> r.value.title == raw.fields["title"].s && r.value.slug == raw.fields["slug"].s
    ensures r.Ok? ==> r.value.description == TextField(Get(raw.fields, "description"))
    ensures r.Ok? ==> r.value.coverImageUrl == TextField(Get(raw.fields, "cover_image_url"))
    ensures r.Ok? ==> r.value.duration == TextField(Get(raw.fields, "duration"))
  {
    SchemaIssuesEmptyIff(CreateMode, raw);
    if SchemaIssues(CreateMode, raw) != [] then Err(SchemaIssues(CreateMode, raw))
    else
      var o := raw.fields;
      var level := if "level" in o then ParseLevel(o["level"].s).value else Beginner;
      var published := if "is_published" in o then o["is_published"].b else false;
      Ok(CreateInput(o["title"].s, TextField(Get(o, "description")), o["slug"].s,
                     TextField(Get(o, "cover_image_url")), TextField(Get(o, "duration")),
                     level, published))
  }

  /** `courseUpdateSchema.safeParse(raw)`: absent fields stay absent
      (`.partial()` bypasses the defaults). */
  function ParseUpdate(raw: Json): (r: Result<UpdateInput, seq<Issue>>)
    ensures r.Ok? <==> RulesHold(UpdateMode, raw)
    ensures r.Err? ==> r.error == SchemaIssues(UpdateMode, raw) && |r.error| > 0
    ensures r.Ok? ==> ValidUpdateInput(r.value) && r.value.id == raw.fields["id"].s
    ensures r.Ok? ==> (r.value.slug.Some? <==> "slug" in raw.fields)
    ensures r.Ok? ==> (r.value.level.Some? <==> "level" in raw.fields)
    ensures r.Ok? ==> (r.value.isPublished.Some? <==> "is_published" in raw.fields)
    ensures r.Ok? ==> r.value.title == (if "title" in raw.fields then Some(raw.fields["title"].s) else None)
    ensures r.Ok? ==> r.value.slug == (if "slug" in raw.fields then Some(raw.fields["slug"].s) else None)
    ensures r.Ok? && "level" in raw.fields ==> LevelName(r.value.level.value) == raw.fields["level"].s
    ensures r.Ok? && "is_published" in raw.fields ==> r.value.isPublished == Some(raw.fields["is_published"].b)
    ensures r.Ok? ==> r.value.description == TextField(Get(raw.fields, "description"))
    ensures r.Ok? ==> r.value.coverImageUrl == TextField(Get(raw.fields, "cover_image_url"))
    ensures r.Ok? ==> r.value.duration == TextField(Get(raw.fields, "duration"))
  {
    SchemaIssuesEmptyIff(UpdateMode, raw);
    if SchemaIssues(UpdateMode, raw) != [] then Err(SchemaIssues(UpdateMode, raw))
    else
      var o := raw.fields;
      Ok(UpdateInput(
        o["id"].s,
        if "title" in o then Some(o["title"].s) else None,
        TextField(Get(o, "description")),
        if "slug" in o then Some(o["slug"].s) else None,
        TextField(Get(o, "cover_image_url")),
        TextField(Get(o, "duration")),
        if "level" in o then Some(ParseLevel(o["level"].s).value) else None,
        if "is_published" in o then Some(o["is_published"].b) else None))
  }

  /** A property outside the shape does not change a field's issues. */
  lemma FieldIssuesIgnoreKey(mode: Mode, f: Field, o: map<string, Json>, key: string, v: Json)
    requires Key(f) != key
    ensures FieldIssues(mode, f, o[key := v]) == FieldIssues(mode, f, o)
  {
    assert Get(o[key := v], Key(f)) == Get(o, Key(f));
  }

  lemma ObjectIssuesIgnoreKey(mode: Mode, o: map<string, Json>, key: string, v: Json)
    requires FieldOfKey(key).None?
    ensures ObjectIssues(mode, o[key := v]) == ObjectIssues(mode, o)
  {
    FieldIssuesIgnoreKey(mode, TitleKey, o, key, v);
    FieldIssuesIgnoreKey(mode, DescriptionKey, o, key, v);
    FieldIssuesIgnoreKey(mode, SlugKey, o, key, v);
    FieldIssuesIgnoreKey(mode, CoverImageUrlKey, o, key, v);
    FieldIssuesIgnoreKey(mode, DurationKey, o, key, v);
    FieldIssuesIgnoreKey(mode, LevelKey, o, key, v);
    FieldIssuesIgnoreKey(mode, IsPublishedKey, o, key, v);
    FieldIssuesIgnoreKey(mode, IdKey, o, key, v);
  }

  /** Keys outside the shape (such as `order_index`) are stripped: setting
      one changes neither the issues nor the parsed create record. */
  lemma ParseCreateIgnoresKey(o: map<string, Json>, key: string, v: Json)
    requires FieldOfKey(key).None?
    ensures ParseCreate(JObject(o[key := v])) == ParseCreate(JObject(o))
  {
    var o' := o[key := v];
    ObjectIssuesIgnoreKey(CreateMode, o, key, v);
    assert SchemaIssues(CreateMode, JObject(o')) == SchemaIssues(CreateMode, JObject(o));
    if SchemaIssues(CreateMode, JObject(o)) == [] {
      forall f: Field ensures Get(o', Key(f)) == Get(o, Key(f)) {
        assert Key(f) != key;
      }
      assert Get(o', "title") == Get(o, "title") && Get(o', "slug") == Get(o, "slug");
      assert Get(o', "level") == Get(o, "level");
      assert Get(o', "is_published") == Get(o, "is_published");
      assert Get(o', "description") == Get(o, "description");
      assert Get(o', "cover_image_url") == Get(o, "cover_image_url");
      assert Get(o', "duration") == Get(o, "duration");
    }
  }

  /** The same for the update record. */
  lemma ParseUpdateIgnoresKey(o: map<string, Json>, key: string, v: Json)
    requires FieldOfKey(key).None?
    ensures ParseUpdate(JObject(o[key := v])) == ParseUpdate(JObject(o))
  {
    var o' := o[key := v];
    ObjectIssuesIgnoreKey(UpdateMode, o, key, v);
    assert SchemaIssues(UpdateMode, JObject(o')) == SchemaIssues(UpdateMode, JObject(o));
    if SchemaIssues(UpdateMode, JObject(o)) == [] {
      forall f: Field ensures Get(o', Key(f)) == Get(o, Key(f)) {
        assert Key(f) != key;
      }
      assert Get(o', "id") == Get(o, "id") && Get(o', "title") == Get(o, "title");
      assert Get(o', "slug") == Get(o, "slug") && Get(o', "level") == Get(o, "level");
      assert Get(o', "is_published") == Get(o, "is_published");
      assert Get(o', "description") == Get(o, "description");
      assert Get(o', "cover_image_url") == Get(o, "cover_image_url");
      assert Get(o', "duration") == Get(o, "duration");
    }
  }

  /** courseSchema: a stored course respects the create rules, has a UUID
      id and an integer `order_index` of at least 0. */
  predicate StoredCourseOk(c: Course) {
    && 1 <= |c.title| <= TitleMax
    && (c.description.Some? ==> |c.description.value| <= DescriptionMax)
    && |c.slug| <= SlugMax && MatchesSlugPattern(c.slug)
    && (c.coverImageUrl.Some? ==> IsAbsoluteUrl(c.coverImageUrl.value))
    && (c.duration.Some? ==> |c.duration.value| <= DurationMax)
    && IsUuid(c.id)
    && c.orderIndex >= 0
  }

  // ---------------------------------------------------------------------
  // Boundaries

  /** A title of exactly 200 characters is accepted; one of 201 is rejected
      with the too-long message naming the field and the maximum. */
  lemma TitleBoundary(s: string)
    ensures |s| == TitleMax ==> TitleMessages(Some(JStr(s))) == []
    ensures |s| == TitleMax + 1 ==>
      TitleMessages(Some(JStr(s))) == ["Слишком длинный название. Максимум 200 символов"]
    ensures |s| == 0 ==> TitleMessages(Some(JStr(s))) == [TitleRequiredMsg]
  {
    TitleTooLongText();
  }

  /** The slug rule, as a property of the string alone. */
  lemma SlugAcceptedIff(s: string)
    ensures SlugMessages(Some(JStr(s))) == [] <==>
            1 <= |s| <= SlugMax && forall i :: 0 <= i < |s| ==> IsSlugChar(s[i])
  {
  }
}
