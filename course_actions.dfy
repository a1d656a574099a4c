/**
 * The course server actions as far as their validation and authorization
 * outcome goes: `createCourseInternal` builds the insert payload of a new
 * draft course, `publishCourseInternal` re-validates the stored course
 * against the publish schema before switching it to published. The store
 * writes themselves, revalidation and the toast texts are not modelled.
 */
module CourseActions {
  import opened Wrappers
  import opened Strings
  import opened Schema
  import Db
  import opened Guards
  import opened CourseValidation

  /** `mapZodErrors`: the first message of every field that has one. */
  function FirstMessages(issues: seq<Issue>): (m: map<string, string>)
    ensures forall f :: f in m <==> f != "" && HasIssueOn(issues, f)
    ensures forall f :: f in m ==> m[f] == FieldErrors(issues)[f][0]
    ensures forall f :: f in m ==> m[f] == issues[FirstIssueOn(issues, f)].message
  {
    var errors := FieldErrors(issues);
    map f | f in errors :: errors[f][0]
  }

  /** What `createCourseInternal` does: fail with a code, or insert `payload`. */
  datatype CreateOutcome =
    | CreateFailed(code: int, fieldErrors: map<string, string>)
    | Insert(payload: Db.CourseRow)

  /**
   * `createCourseInternal` up to the insert: the instructor guard, then the
   * draft schema (422 with its field errors), then a draft row owned by the
   * caller under the freshly generated `newId`.
   */
  function CreateCourse(s: Snapshot, input: CourseInput, isUrl: string -> bool, newId: string): (r: CreateOutcome)
    ensures RequireInstructor(s).Err? ==> r == CreateFailed(RequireInstructor(s).error.code, map[])
    ensures r.Insert? <==> RequireInstructor(s).Ok? && DraftSchema(input, isUrl).Ok?
    ensures RequireInstructor(s).Ok? && DraftSchema(input, isUrl).Err?
            ==> r == CreateFailed(422, FirstMessages(DraftSchema(input, isUrl).error))
    ensures r.Insert? ==> var d := DraftSchema(input, isUrl).value;
                          && r.payload.id == newId
                          && r.payload.instructorId == RequireInstructor(s).value.user.id
                          && r.payload.status == Db.CourseDraft
                          && r.payload.title == d.title
                          && r.payload.description == d.description
                          && r.payload.thumbnailUrl == d.thumbnailUrl
  {
    match RequireInstructor(s)
    case Err(e) => CreateFailed(e.code, map[])
    case Ok(granted) =>
      match DraftSchema(input, isUrl)
      case Err(issues) => CreateFailed(422, FirstMessages(issues))
      case Ok(d) => Insert(Db.CourseRow(newId, granted.user.id, d.title, d.description, d.thumbnailUrl, Db.CourseDraft))
  }

  /** A successful create always stores a draft owned by the signed-in instructor. */
  lemma CreatedCourseIsCallersDraft(s: Snapshot, input: CourseInput, isUrl: string -> bool, newId: string)
    requires CreateCourse(s, input, isUrl, newId).Insert?
    ensures var row := CreateCourse(s, input, isUrl, newId).payload;
            && row.status == Db.CourseDraft
            && row.instructorId == s.auth.user.value.id
            && row.title == Trim(input.title.s)
  {
  }

  /** What `publishCourseInternal` does: fail with a code, do nothing, or write `status = published`. */
  datatype PublishOutcome =
    | PublishFailed(code: int, fieldErrors: map<string, string>)
    | AlreadyPublished
    | SetPublished(courseId: string)

  /** The stored course as the publish schema receives it: a `null` description is `''`, a `null` thumbnail is absent. */
  function StoredAsInput(c: Db.CourseRow): (input: CourseInput)
    ensures input.title == Str(c.title)
    ensures input.description == Str(c.description.GetOr(""))
    ensures input.thumbnailUrl == if c.thumbnailUrl.Some? then Str(c.thumbnailUrl.value) else Undefined
  {
    CourseInput(Str(c.title), Str(c.description.GetOr("")),
                match c.thumbnailUrl case None => Undefined case Some(t) => Str(t))
  }

  /**
   * `publishCourseInternal`: the ownership guard, then the publish schema on
   * the stored course (422 with its field errors), then nothing when the
   * course is already published and the status write otherwise.
   */
  function PublishCourse(s: Snapshot, courseId: string, isUrl: string -> bool): (r: PublishOutcome)
    ensures RequireCourseOwnership(s, courseId).Err? ==> r == PublishFailed(RequireCourseOwnership(s, courseId).error.code, map[])
    ensures RequireCourseOwnership(s, courseId).Ok? ==>
              var c := RequireCourseOwnership(s, courseId).value.course;
              var parsed := PublishSchema(StoredAsInput(c), isUrl);
              && (parsed.Err? ==> r == PublishFailed(422, FirstMessages(parsed.error)))
              && (parsed.Ok? && c.status == Db.CoursePublished ==> r == AlreadyPublished)
              && (parsed.Ok? && c.status != Db.CoursePublished ==> r == SetPublished(courseId))
    ensures r.SetPublished? ==> r.courseId == courseId
  {
    match RequireCourseOwnership(s, courseId)
    case Err(e) => PublishFailed(e.code, map[])
    case Ok(owned) =>
      match PublishSchema(StoredAsInput(owned.course), isUrl)
      case Err(issues) => PublishFailed(422, FirstMessages(issues))
      case Ok(_) => if owned.course.status == Db.CoursePublished then AlreadyPublished else SetPublished(courseId)
  }

  /** An owned course without a description cannot be published: 422, with an error on `description`. */
  lemma PublishBlockedWithoutDescription(s: Snapshot, courseId: string, isUrl: string -> bool)
    requires RequireCourseOwnership(s, courseId).Ok?
    requires RequireCourseOwnership(s, courseId).value.course.description.None?
    ensures PublishCourse(s, courseId, isUrl).PublishFailed?
    ensures PublishCourse(s, courseId, isUrl).code == 422
    ensures "description" in PublishCourse(s, courseId, isUrl).fieldErrors
  {
    NoDescriptionFailsSchema(RequireCourseOwnership(s, courseId).value.course, isUrl);
  }

  /** A stored course with a null description fails the publish schema with an error on `description`. */
  lemma NoDescriptionFailsSchema(c: Db.CourseRow, isUrl: string -> bool)
    requires c.description.None?
    ensures PublishSchema(StoredAsInput(c), isUrl).Err?
    ensures "description" in FirstMessages(PublishSchema(StoredAsInput(c), isUrl).error)
  {
    var input := StoredAsInput(c);
    assert input.description == Str("");
    assert Trim("") == [];
    assert !PublishDescriptionAccepted(input.description);
    var parsed := PublishSchema(input, isUrl);
    assert HasIssueOn(parsed.error, "description");
  }

  /** Publishing only ever writes a course the caller owns, that was not published yet and whose stored fields pass the publish schema. */
  lemma PublishWritesOnlyValidOwnedDrafts(s: Snapshot, courseId: string, isUrl: string -> bool)
    requires PublishCourse(s, courseId, isUrl).SetPublished?
    ensures RequireCourseOwnership(s, courseId).Ok?
    ensures var c := RequireCourseOwnership(s, courseId).value.course;
            && c.id == courseId && c.instructorId == s.auth.user.value.id
            && c.status != Db.CoursePublished
            && PublishSchema(StoredAsInput(c), isUrl).Ok?
  {
  }
}
