/** The query layer (lib/services/course/courseQueries.ts) over an in-memory
    `courses` table instead of a network client. Every operation answers
    with `{ data, error }` as the backend does. The table keeps the store's
    two unique constraints (primary key `id` and `slug`): an insert or update
    that would break one fails with SQLSTATE 23505 and changes nothing.
    A request that asks for a single row (`.single()`) fails unless exactly
    one row matches.

    Each operation is a function on the rows (what it answers and what the
    table becomes) with its properties in its contract, and a method of
    `CourseTable` that applies it in place. */
module CourseQueries {
  import opened JsValues
  import opened CourseSchemas
  import opened CourseValidators

  const UniqueViolationError := PgError(UniqueViolation, "duplicate key value violates unique constraint")

  /** PostgREST's answer when `.single()` does not see exactly one row. */
  const NotSingleError := PgError("PGRST116", "JSON object requested, multiple (or no) rows returned")

  /** `{ data, error }` of a backend request. */
  datatype Response<T> = Response(data: Option<T>, error: Option<PgError>)

  /** What a request answers and what the table holds afterwards. */
  datatype Step<T> = Step(response: Response<T>, rows: seq<Course>)

  // ---------------------------------------------------------------------
  // Table invariants

  predicate UniqueIds(rows: seq<Course>) {
    forall i, j :: 0 <= i < j < |rows| ==> rows[i].id != rows[j].id
  }

  predicate UniqueSlugs(rows: seq<Course>) {
    forall i, j :: 0 <= i < j < |rows| ==> rows[i].slug != rows[j].slug
  }

  predicate IdTaken(rows: seq<Course>, id: string) {
    exists i :: 0 <= i < |rows| && rows[i].id == id
  }

  predicate SlugTaken(rows: seq<Course>, slug: string) {
    exists i :: 0 <= i < |rows| && rows[i].slug == slug
  }

  /** Some row other than the one with `id` already uses `slug`. */
  predicate SlugHeldByOther(rows: seq<Course>, slug: string, id: string) {
    exists i :: 0 <= i < |rows| && rows[i].slug == slug && rows[i].id != id
  }

  // ---------------------------------------------------------------------
  // Filters (`.eq(column, value)`)

  function WithId(rows: seq<Course>, id: string): seq<Course> {
    Filter(rows, (c: Course) => c.id == id)
  }

  function WithSlug(rows: seq<Course>, slug: string): seq<Course> {
    Filter(rows, (c: Course) => c.slug == slug)
  }

  function PublishedRows(rows: seq<Course>): seq<Course> {
    Filter(rows, (c: Course) => c.isPublished)
  }

  function WithoutId(rows: seq<Course>, id: string): seq<Course> {
    Filter(rows, (c: Course) => c.id != id)
  }

  /** Under unique ids a filter by id sees at most one row, and sees one
      exactly when the id is taken. */
  lemma {:induction false} WithIdUnique(rows: seq<Course>, id: string)
    requires UniqueIds(rows)
    ensures |WithId(rows, id)| <= 1
    ensures |WithId(rows, id)| == 1 <==> IdTaken(rows, id)
  {
    if rows != [] {
      WithIdUnique(rows[1..], id);
      if rows[0].id == id {
        forall k | 0 <= k < |rows[1..]| ensures rows[1..][k].id != id {
          assert rows[1..][k] == rows[k + 1];
        }
      } else if IdTaken(rows, id) {
        var k :| 0 <= k < |rows| && rows[k].id == id;
        assert rows[1..][k - 1].id == id;
      }
    }
  }

  lemma {:induction false} WithSlugUnique(rows: seq<Course>, slug: string)
    requires UniqueSlugs(rows)
    ensures |WithSlug(rows, slug)| <= 1
    ensures |WithSlug(rows, slug)| == 1 <==> SlugTaken(rows, slug)
  {
    if rows != [] {
      WithSlugUnique(rows[1..], slug);
      if rows[0].slug == slug {
        forall k | 0 <= k < |rows[1..]| ensures rows[1..][k].slug != slug {
          assert rows[1..][k] == rows[k + 1];
        }
      } else if SlugTaken(rows, slug) {
        var k :| 0 <= k < |rows| && rows[k].slug == slug;
        assert rows[1..][k - 1].slug == slug;
      }
    }
  }

  /** Under unique ids, the one row a filter by id finds is the row at the
      position that holds that id. */
  lemma {:induction false} WithIdIsThatRow(rows: seq<Course>, id: string, k: nat)
    requires UniqueIds(rows) && k < |rows| && rows[k].id == id
    ensures WithId(rows, id) == [rows[k]]
  {
    if k == 0 {
      forall m | 0 <= m < |rows[1..]| ensures rows[1..][m].id != id {
        assert rows[1..][m] == rows[m + 1];
      }
      WithIdUnique(rows[1..], id);
    } else {
      assert rows[1..][k - 1].id == id;
      WithIdIsThatRow(rows[1..], id, k - 1);
    }
  }

  // ---------------------------------------------------------------------
  // Orderings (`.order(column, { ascending })`)

  /** `created_at` descending; or `order_index` ascending, then
      `created_at` descending. */
  datatype Ordering = NewestFirst | PublishedOrder

  /** `a` may come before `b`. */
  predicate Precedes(o: Ordering, a: Course, b: Course) {
    match o
    case NewestFirst => a.createdAt >= b.createdAt
    case PublishedOrder =>
      a.orderIndex < b.orderIndex || (a.orderIndex == b.orderIndex && a.createdAt >= b.createdAt)
  }

  predicate SortedBy(o: Ordering, s: seq<Course>) {
    forall i, j :: 0 <= i < j < |s| ==> Precedes(o, s[i], s[j])
  }

  /** `x` placed before the first element it may precede. */
  function InsertOrdered(o: Ordering, x: Course, s: seq<Course>): seq<Course> {
    if s == [] then [x]
    else if Precedes(o, x, s[0]) then [x] + s
    else [s[0]] + InsertOrdered(o, x, s[1..])
  }

  /** Either of two rows may come first under an ordering. */
  lemma PrecedesTotal(o: Ordering, a: Course, b: Course)
    ensures !Precedes(o, a, b) ==> Precedes(o, b, a)
  {
  }

  lemma {:induction false} InsertOrderedPermutation(o: Ordering, x: Course, s: seq<Course>)
    ensures multiset(InsertOrdered(o, x, s)) == multiset(s) + multiset{x}
  {
    if s != [] && !Precedes(o, x, s[0]) {
      InsertOrderedPermutation(o, x, s[1..]);
      assert s == [s[0]] + s[1..];
    }
  }

  lemma {:induction false} InsertOrderedSorted(o: Ordering, x: Course, s: seq<Course>)
    requires SortedBy(o, s)
    ensures SortedBy(o, InsertOrdered(o, x, s))
  {
    if s == [] {
    } else if Precedes(o, x, s[0]) {
      var r := [x] + s;
      forall i, j | 0 <= i < j < |r| ensures Precedes(o, r[i], r[j]) {
        if i == 0 && j > 1 {
          assert r[j] == s[j - 1];
        } else if i > 0 {
          assert r[i] == s[i - 1] && r[j] == s[j - 1];
        }
      }
    } else {
      var tail := InsertOrdered(o, x, s[1..]);
      InsertOrderedSorted(o, x, s[1..]);
      InsertOrderedPermutation(o, x, s[1..]);
      PrecedesTotal(o, x, s[0]);
      var r := [s[0]] + tail;
      forall j | 0 < j < |r| ensures Precedes(o, s[0], r[j]) {
        assert r[j] == tail[j - 1];
        assert tail[j - 1] in multiset(s[1..]) + multiset{x};
        if tail[j - 1] != x {
          var k :| 0 <= k < |s[1..]| && s[1..][k] == tail[j - 1];
          assert s[k + 1] == tail[j - 1];
        }
      }
      forall i, j | 0 < i < j < |r| ensures Precedes(o, r[i], r[j]) {
        assert r[i] == tail[i - 1] && r[j] == tail[j - 1];
      }
    }
  }

  /** Insertion sort by the ordering. */
  function SortBy(o: Ordering, s: seq<Course>): seq<Course> {
    if s == [] then [] else InsertOrdered(o, s[0], SortBy(o, s[1..]))
  }

  /** The sorted rows are in the requested order and are the same rows;
      rows that tie may come in any order, so nothing more is fixed. */
  lemma {:induction false} SortBySortedPermutation(o: Ordering, s: seq<Course>)
    ensures SortedBy(o, SortBy(o, s))
    ensures multiset(SortBy(o, s)) == multiset(s)
  {
    if s != [] {
      SortBySortedPermutation(o, s[1..]);
      InsertOrderedSorted(o, s[0], SortBy(o, s[1..]));
      InsertOrderedPermutation(o, s[0], SortBy(o, s[1..]));
      assert s == [s[0]] + s[1..];
    }
  }

  // ---------------------------------------------------------------------
  // Reads

  /** `.single()`: the row if exactly one matched, else an error and no data. */
  function Single(matches: seq<Course>): (r: Response<Course>)
    ensures r.data.Some? <==> |matches| == 1
    ensures r.data.Some? ==> r.data.value == matches[0] && r.error.None?
    ensures r.data.None? ==> r.error == Some(NotSingleError)
  {
    if |matches| == 1 then Response(Some(matches[0]), None)
    else Response(None, Some(NotSingleError))
  }

  /** selectAll: every row, newest first. */
  function SelectAllResult(rows: seq<Course>): (r: Response<seq<Course>>)
    ensures r.error.None? && r.data.Some?
    ensures SortedBy(NewestFirst, r.data.value)
    ensures multiset(r.data.value) == multiset(rows)
  {
    SortBySortedPermutation(NewestFirst, rows);
    Response(Some(SortBy(NewestFirst, rows)), None)
  }

  /** selectPublished: exactly the published rows, by `order_index`, then
      newest first. */
  function SelectPublishedResult(rows: seq<Course>): (r: Response<seq<Course>>)
    ensures r.error.None? && r.data.Some?
    ensures SortedBy(PublishedOrder, r.data.value)
    ensures multiset(r.data.value) == multiset(PublishedRows(rows))
  {
    SortBySortedPermutation(PublishedOrder, PublishedRows(rows));
    Response(Some(SortBy(PublishedOrder, PublishedRows(rows))), None)
  }

  /** The published listing holds every published row and nothing else. */
  lemma PublishedListingMembers(rows: seq<Course>, c: Course)
    ensures c in SelectPublishedResult(rows).data.value <==> c in rows && c.isPublished
  {
    var listed := SelectPublishedResult(rows).data.value;
    assert c in listed <==> c in multiset(listed);
    assert c in PublishedRows(rows) <==> c in multiset(PublishedRows(rows));
  }

  /** selectById: the one row with that id, or an error and no data. */
  function SelectByIdResult(rows: seq<Course>, id: string): (r: Response<Course>)
    ensures r.data.Some? ==> r.data.value in rows && r.data.value.id == id && r.error.None?
    ensures r.data.None? ==> r.error == Some(NotSingleError)
    ensures UniqueIds(rows) ==> (r.data.Some? <==> IdTaken(rows, id))
  {
    assert UniqueIds(rows) ==> (|WithId(rows, id)| == 1 <==> IdTaken(rows, id)) by {
      if UniqueIds(rows) { WithIdUnique(rows, id); }
    }
    Single(WithId(rows, id))
  }

  /** selectBySlug: the one row with that slug, or an error and no data. */
  function SelectBySlugResult(rows: seq<Course>, slug: string): (r: Response<Course>)
    ensures r.data.Some? ==> r.data.value in rows && r.data.value.slug == slug && r.error.None?
    ensures r.data.None? ==> r.error == Some(NotSingleError)
    ensures UniqueSlugs(rows) ==> (r.data.Some? <==> SlugTaken(rows, slug))
  {
    assert UniqueSlugs(rows) ==> (|WithSlug(rows, slug)| == 1 <==> SlugTaken(rows, slug)) by {
      if UniqueSlugs(rows) { WithSlugUnique(rows, slug); }
    }
    Single(WithSlug(rows, slug))
  }

  // ---------------------------------------------------------------------
  // Writes

  /** The row an insert stores: `{...courseData, order_index: 0}`, with the
      id and timestamps the store assigns; a missing nullable column is null. */
  function NewRow(input: CreateInput, id: string, now: nat): Course {
    Course(id, input.title, input.description.ToColumn(), input.slug,
           input.coverImageUrl.ToColumn(), input.duration.ToColumn(),
           input.level, 0, input.isPublished, now, now)
  }

  /** insert: one new row, unless its id or slug is already used. */
  function InsertStep(rows: seq<Course>, input: CreateInput, id: string, now: nat): (s: Step<Course>)
    ensures s.response.error.None? <==> !IdTaken(rows, id) && !SlugTaken(rows, input.slug)
    ensures s.response.error.Some? ==>
              s.response.error.value.code == UniqueViolation && s.response.data.None? && s.rows == rows
    ensures s.response.error.None? ==>
              |s.rows| == |rows| + 1 && s.rows[..|rows|] == rows &&
              s.response.data == Some(s.rows[|rows|]) && s.rows[|rows|].orderIndex == 0
    ensures UniqueIds(rows) && UniqueSlugs(rows) ==> UniqueIds(s.rows) && UniqueSlugs(s.rows)
  {
    if IdTaken(rows, id) || SlugTaken(rows, input.slug) then
      Step(Response(None, Some(UniqueViolationError)), rows)
    else
      var row := NewRow(input, id, now);
      assert (rows + [row])[..|rows|] == rows;
      Step(Response(Some(row), None), rows + [row])
  }

  /** A nullable column after `...courseData`: kept when the key is absent. */
  function MergeColumn(current: Option<string>, v: Nullish<string>): Option<string> {
    match v
    case Undefined => current
    case Null => None
    case Defined(s) => Some(s)
  }

  /** A row after `update({...courseData, updated_at})`: the supplied
      fields overwritten, the rest kept. */
  function Merge(c: Course, u: UpdateInput, now: nat): Course {
    c.(title := u.title.GetOr(c.title),
       description := MergeColumn(c.description, u.description),
       slug := u.slug.GetOr(c.slug),
       coverImageUrl := MergeColumn(c.coverImageUrl, u.coverImageUrl),
       duration := MergeColumn(c.duration, u.duration),
       level := u.level.GetOr(c.level),
       isPublished := u.isPublished.GetOr(c.isPublished),
       updatedAt := now)
  }

  /** The rows with that id merged with `u`. */
  function MergeWhereId(rows: seq<Course>, id: string, u: UpdateInput, now: nat): seq<Course> {
    seq(|rows|, i requires 0 <= i < |rows| => if rows[i].id == id then Merge(rows[i], u, now) else rows[i])
  }

  /** update(id, data): the one row with that id is merged with `data`,
      unless that would give it a slug another row holds. When not exactly
      one row has that id the request fails and nothing changes. The
      payload's own `id` is that same id, so it is not rewritten. */
  function UpdateStep(rows: seq<Course>, id: string, u: UpdateInput, now: nat): (s: Step<Course>)
    ensures s.response.error.Some? ==> s.rows == rows && s.response.data.None?
    ensures s.response.error.None? ==> s.rows == MergeWhereId(rows, id, u, now)
  {
    var matches := WithId(rows, id);
    if |matches| != 1 then Step(Response(None, Some(NotSingleError)), rows)
    else if u.slug.Some? && SlugHeldByOther(rows, u.slug.value, id) then
      Step(Response(None, Some(UniqueViolationError)), rows)
    else Step(Response(Some(Merge(matches[0], u, now)), None), MergeWhereId(rows, id, u, now))
  }

  /** An update succeeds exactly when the row exists and no other row holds
      the new slug; a missing row reports the single-row error. */
  lemma UpdateStepOutcome(rows: seq<Course>, id: string, u: UpdateInput, now: nat)
    requires UniqueIds(rows)
    ensures var s := UpdateStep(rows, id, u, now);
            && (s.response.error.None? <==>
                  IdTaken(rows, id) && !(u.slug.Some? && SlugHeldByOther(rows, u.slug.value, id)))
            && (!IdTaken(rows, id) ==> s.response.error == Some(NotSingleError))
            && (u.slug.Some? && SlugHeldByOther(rows, u.slug.value, id) && IdTaken(rows, id) ==>
                  s.response.error == Some(UniqueViolationError))
  {
    WithIdUnique(rows, id);
  }

  /** A successful update changes only the row with that id: the supplied
      fields, and `updated_at` refreshed; the answer is that row. */
  lemma UpdateStepChangesOnlyThatRow(rows: seq<Course>, id: string, u: UpdateInput, now: nat, k: nat)
    requires UniqueIds(rows) && k < |rows| && rows[k].id == id
    requires UpdateStep(rows, id, u, now).response.error.None?
    ensures var s := UpdateStep(rows, id, u, now);
            && |s.rows| == |rows|
            && s.rows[k] == Merge(rows[k], u, now)
            && s.rows[k].updatedAt == now && s.rows[k].id == id
            && (u.title.None? ==> s.rows[k].title == rows[k].title)
            && (u.slug.None? ==> s.rows[k].slug == rows[k].slug)
            && (forall i :: 0 <= i < |rows| && i != k ==> s.rows[i] == rows[i])
            && s.response.data == Some(s.rows[k])
  {
    WithIdIsThatRow(rows, id, k);
    forall i | 0 <= i < |rows| && i != k ensures rows[i].id != id {
    }
  }

  /** A successful or failed update keeps both unique constraints. */
  lemma UpdateStepKeepsConstraints(rows: seq<Course>, id: string, u: UpdateInput, now: nat)
    requires UniqueIds(rows) && UniqueSlugs(rows)
    ensures UniqueIds(UpdateStep(rows, id, u, now).rows) && UniqueSlugs(UpdateStep(rows, id, u, now).rows)
  {
    var s := UpdateStep(rows, id, u, now);
    if s.response.error.None? {
      var m := MergeWhereId(rows, id, u, now);
      forall i, j | 0 <= i < j < |m| ensures m[i].id != m[j].id && m[i].slug != m[j].slug {
        assert m[i].id == rows[i].id && m[j].id == rows[j].id;
      }
    }
  }

  /** delete(id): every row with that id removed, the others kept in order. */
  function DeleteStep(rows: seq<Course>, id: string): (s: Step<()>)
    ensures s.response == Response(None, None)
    ensures forall i :: 0 <= i < |s.rows| ==> s.rows[i].id != id && s.rows[i] in rows
    ensures forall i :: 0 <= i < |rows| && rows[i].id != id ==> rows[i] in s.rows
    ensures !IdTaken(rows, id) ==> s.rows == rows
  {
    Step(Response(None, None), WithoutId(rows, id))
  }

  /** The rows with that id published or unpublished. */
  function PublishWhereId(rows: seq<Course>, id: string, isPublished: bool, now: nat): seq<Course> {
    seq(|rows|, i requires 0 <= i < |rows| =>
      if rows[i].id == id then rows[i].(isPublished := isPublished, updatedAt := now) else rows[i])
  }

  /** togglePublish(id, flag): the row with that id gets `is_published =
      flag` and a fresh `updated_at`; when not exactly one row has that id,
      an error and no change. */
  function TogglePublishStep(rows: seq<Course>, id: string, isPublished: bool, now: nat): (s: Step<Course>)
    ensures s.response.error.Some? ==> s.rows == rows && s.response.error == Some(NotSingleError)
    ensures s.response.error.None? ==>
              s.rows == PublishWhereId(rows, id, isPublished, now) &&
              s.response.data.Some? && s.response.data.value.isPublished == isPublished &&
              s.response.data.value.updatedAt == now && s.response.data.value.id == id
    ensures s.response.error.None? ==>
              exists k :: 0 <= k < |rows| && rows[k].id == id &&
                s.response.data.value == s.rows[k] &&
                s.response.data.value == rows[k].(isPublished := isPublished, updatedAt := now)
  {
    var matches := WithId(rows, id);
    if |matches| != 1 then Step(Response(None, Some(NotSingleError)), rows)
    else
      assert matches[0] in rows;
      assert exists k :: 0 <= k < |rows| && rows[k].id == id &&
               PublishWhereId(rows, id, isPublished, now)[k] == rows[k].(isPublished := isPublished, updatedAt := now) &&
               matches[0] == rows[k] by {
        var k :| 0 <= k < |rows| && rows[k] == matches[0];
        assert PublishWhereId(rows, id, isPublished, now)[k] == rows[k].(isPublished := isPublished, updatedAt := now);
      }
      Step(Response(Some(matches[0].(isPublished := isPublished, updatedAt := now)), None),
           PublishWhereId(rows, id, isPublished, now))
  }

  /** Toggling keeps both unique constraints, and succeeds exactly when
      the row exists. */
  lemma TogglePublishStepKeepsConstraints(rows: seq<Course>, id: string, flag: bool, now: nat)
    requires UniqueIds(rows) && UniqueSlugs(rows)
    ensures var s := TogglePublishStep(rows, id, flag, now);
            UniqueIds(s.rows) && UniqueSlugs(s.rows) &&
            (s.response.error.None? <==> IdTaken(rows, id))
  {
    WithIdUnique(rows, id);
    var p := PublishWhereId(rows, id, flag, now);
    assert forall i :: 0 <= i < |p| ==> p[i].id == rows[i].id && p[i].slug == rows[i].slug;
  }

  /** Toggling twice with the same flag leaves the same flag as toggling
      once; only `updated_at` moves on. */
  lemma TogglePublishTwice(rows: seq<Course>, id: string, flag: bool, t1: nat, t2: nat)
    requires UniqueIds(rows) && IdTaken(rows, id)
    ensures var once := TogglePublishStep(rows, id, flag, t1);
            var twice := TogglePublishStep(once.rows, id, flag, t2);
            && once.response.error.None? && twice.response.error.None?
            && once.response.data.value.isPublished == flag
            && twice.response.data.value == once.response.data.value.(updatedAt := t2)
  {
    var k :| 0 <= k < |rows| && rows[k].id == id;
    WithIdIsThatRow(rows, id, k);
    var once := TogglePublishStep(rows, id, flag, t1);
    assert forall i :: 0 <= i < |once.rows| ==> once.rows[i].id == rows[i].id;
    WithIdIsThatRow(once.rows, id, k);
  }

  // ---------------------------------------------------------------------
  // The table

  /** The `courses` table. */
  class CourseTable {
    var rows: seq<Course>

    /** The store's unique constraints. */
    ghost predicate Valid()
      reads this
    {
      UniqueIds(rows) && UniqueSlugs(rows)
    }

    constructor (initial: seq<Course>)
      requires UniqueIds(initial) && UniqueSlugs(initial)
      ensures Valid() && rows == initial
    {
      rows := initial;
    }

    method SelectAll() returns (r: Response<seq<Course>>)
      ensures r == SelectAllResult(rows)
      ensures r.error.None? && SortedBy(NewestFirst, r.data.value)
      ensures multiset(r.data.value) == multiset(rows)
    {
      r := SelectAllResult(rows);
    }

    method SelectById(id: string) returns (r: Response<Course>)
      requires Valid()
      ensures r == SelectByIdResult(rows, id)
      ensures r.data.Some? <==> IdTaken(rows, id)
      ensures r.data.Some? ==> r.data.value in rows && r.data.value.id == id
    {
      r := SelectByIdResult(rows, id);
    }

    method SelectBySlug(slug: string) returns (r: Response<Course>)
      requires Valid()
      ensures r == SelectBySlugResult(rows, slug)
      ensures r.data.Some? <==> SlugTaken(rows, slug)
      ensures r.data.Some? ==> r.data.value in rows && r.data.value.slug == slug
    {
      r := SelectBySlugResult(rows, slug);
    }

    method SelectPublished() returns (r: Response<seq<Course>>)
      ensures r == SelectPublishedResult(rows)
      ensures r.error.None? && SortedBy(PublishedOrder, r.data.value)
      ensures multiset(r.data.value) == multiset(PublishedRows(rows))
    {
      r := SelectPublishedResult(rows);
    }

    method Insert(input: CreateInput, id: string, now: nat) returns (r: Response<Course>)
      requires Valid()
      modifies this
      ensures Valid()
      ensures r == InsertStep(old(rows), input, id, now).response
      ensures rows == InsertStep(old(rows), input, id, now).rows
    {
      var s := InsertStep(rows, input, id, now);
      r, rows := s.response, s.rows;
    }

    method Update(id: string, u: UpdateInput, now: nat) returns (r: Response<Course>)
      requires Valid()
      modifies this
      ensures Valid()
      ensures r == UpdateStep(old(rows), id, u, now).response
      ensures rows == UpdateStep(old(rows), id, u, now).rows
    {
      UpdateStepKeepsConstraints(rows, id, u, now);
      var s := UpdateStep(rows, id, u, now);
      r, rows := s.response, s.rows;
    }

    method Delete(id: string) returns (r: Response<()>)
      requires Valid()
      modifies this
      ensures Valid()
      ensures r == Response(None, None)
      ensures rows == DeleteStep(old(rows), id).rows
    {
      DeletePreservesConstraints(rows, id);
      var s := DeleteStep(rows, id);
      r, rows := s.response, s.rows;
    }

    method TogglePublish(id: string, isPublished: bool, now: nat) returns (r: Response<Course>)
      requires Valid()
      modifies this
      ensures Valid()
      ensures r == TogglePublishStep(old(rows), id, isPublished, now).response
      ensures rows == TogglePublishStep(old(rows), id, isPublished, now).rows
    {
      TogglePublishStepKeepsConstraints(rows, id, isPublished, now);
      var s := TogglePublishStep(rows, id, isPublished, now);
      r, rows := s.response, s.rows;
    }
  }

  /** Removing rows keeps both unique constraints. */
  lemma DeletePreservesConstraints(rows: seq<Course>, id: string)
    requires UniqueIds(rows) && UniqueSlugs(rows)
    ensures UniqueIds(WithoutId(rows, id)) && UniqueSlugs(WithoutId(rows, id))
  {
    FilterKeepsUnique(rows, (c: Course) => c.id != id);
  }

  lemma {:induction false} FilterKeepsUnique(rows: seq<Course>, p: Course -> bool)
    requires UniqueIds(rows) && UniqueSlugs(rows)
    ensures UniqueIds(Filter(rows, p)) && UniqueSlugs(Filter(rows, p))
  {
    if rows != [] {
      FilterKeepsUnique(rows[1..], p);
      var tail := Filter(rows[1..], p);
      forall i | 0 <= i < |tail|
        ensures tail[i].id != rows[0].id && tail[i].slug != rows[0].slug
      {
        var k :| 0 <= k < |rows[1..]| && rows[1..][k] == tail[i];
        assert rows[k + 1] == tail[i];
      }
    }
  }
}
