/**
 * The course schemas: a draft schema (title, optional description,
 * optional thumbnail URL) and a publish schema that makes the
 * description mandatory. `isUrl` is zod's `.url()` check, taken as given.
 */
module CourseValidation {
  import opened Wrappers
  import opened Strings
  import opened Schema

  const TitleRequired := "제목을 입력해주세요."
  const TitleTooLong := "제목은 200자 이하여야 합니다."
  const DescriptionRequired := "설명을 입력해주세요."
  const DescriptionTooShort := "설명은 10자 이상이어야 합니다."
  const DescriptionTooLong := "설명은 5000자 이하여야 합니다."
  const ThumbnailInvalid := "유효한 이미지 URL을 입력해주세요."

  datatype CourseInput = CourseInput(title: Value, description: Value, thumbnailUrl: Value)

  datatype CourseDraft = CourseDraft(title: string, description: Option<string>, thumbnailUrl: Option<string>)

  datatype CoursePublish = CoursePublish(title: string, description: string, thumbnailUrl: Option<string>)

  // Independent statements of what each field accepts.

  predicate TitleAccepted(v: Value) {
    v.Str? && 1 <= Utf16Length(Trim(v.s)) <= 200
  }

  predicate DraftDescriptionAccepted(v: Value) {
    v.Undefined? || (v.Str? && (IsBlank(v.s) || 10 <= Utf16Length(Trim(v.s)) <= 5000))
  }

  predicate PublishDescriptionAccepted(v: Value) {
    v.Str? && 10 <= Utf16Length(Trim(v.s)) <= 5000
  }

  predicate ThumbnailAccepted(v: Value, isUrl: string -> bool) {
    v.Undefined? || (v.Str? && (IsBlank(v.s) || isUrl(Trim(v.s))))
  }

  /** A missing or blank optional string becomes `undefined`; anything else its trimmed text. */
  function Presence(v: Value): Option<string> {
    if v.Str? && !IsBlank(v.s) then Some(Trim(v.s)) else None
  }

  /** `titleSchema`. */
  function Title(v: Value): (p: Parsed<string>)
    ensures p.Valid? <==> TitleAccepted(v)
    ensures p.Valid? ==> p.value == Trim(v.s)
    ensures OnlyOn(p.Issues(), "title")
  {
    TrimmedString("title", v, Some(TitleRequired), 1, TitleRequired, 200, TitleTooLong)
  }

  /**
   * `draftDescriptionSchema` (shared in shape with the assignment schema):
   * missing reads as "", the text is trimmed, must be empty or 10..5000
   * long, and an empty result becomes `undefined`.
   */
  function DraftDescription(path: string, v: Value, tooShort: string, tooLong: string): (p: Parsed<Option<string>>)
    ensures p.Valid? <==> DraftDescriptionAccepted(v)
    ensures p.Valid? ==> p.value == Presence(v)
    ensures OnlyOn(p.Issues(), path) && (!p.Valid? ==> p.issues != [])
  {
    match v
    case Undefined => Valid(None)
    case Str(s) =>
      var t := Trim(s);
      var n := Utf16Length(t);
      TrimEmptyIffBlank(s);
      assert n == 0 <==> IsBlank(s);
      var issues := DescriptionRefineIssues(path, n, tooShort, tooLong);
      if issues == [] then Valid(if n == 0 then None else Some(t))
      else Dirty(Some(t), issues)
    case _ => Aborted([TypeIssue(path, "string", v, None)])
  }

  /** The two refinements of the draft description on its trimmed length `n`. */
  function DescriptionRefineIssues(path: string, n: nat, tooShort: string, tooLong: string): (r: seq<Issue>)
    ensures r == [] <==> n == 0 || 10 <= n <= 5000
    ensures OnlyOn(r, path)
  {
    (if n == 0 || n >= 10 then [] else [Issue(path, tooShort)])
    + (if n == 0 || n <= 5000 then [] else [Issue(path, tooLong)])
  }

  /** `publishDescriptionSchema`: a required string, trimmed, 10..5000 long. */
  function PublishDescription(path: string, v: Value, required: string, tooShort: string, tooLong: string): (p: Parsed<string>)
    ensures p.Valid? <==> PublishDescriptionAccepted(v)
    ensures p.Valid? ==> p.value == Trim(v.s)
    ensures OnlyOn(p.Issues(), path) && (!p.Valid? ==> p.issues != [])
  {
    TrimmedString(path, v, Some(required), 10, tooShort, 5000, tooLong)
  }

  /** `thumbnailOptionalSchema`: missing or blank becomes `undefined`, otherwise the trimmed text must be a URL. */
  function Thumbnail(v: Value, isUrl: string -> bool): (p: Parsed<Option<string>>)
    ensures p.Valid? <==> ThumbnailAccepted(v, isUrl)
    ensures p.Valid? ==> p.value == Presence(v)
    ensures OnlyOn(p.Issues(), "thumbnailUrl") && (!p.Valid? ==> p.issues != [])
  {
    match v
    case Undefined => Valid(None)
    case Str(s) =>
      var t := Trim(s);
      TrimEmptyIffBlank(s);
      if |t| == 0 then Valid(None)
      else if isUrl(t) then Valid(Some(t))
      else Dirty(Some(t), [Issue("thumbnailUrl", ThumbnailInvalid)])
    case _ => Aborted([TypeIssue("thumbnailUrl", "string", v, None)])
  }

  /** `courseDraftSchema.safeParse`. */
  function DraftSchema(input: CourseInput, isUrl: string -> bool): (r: Result<CourseDraft, seq<Issue>>)
    ensures r.Ok? <==> TitleAccepted(input.title) && DraftDescriptionAccepted(input.description)
                       && ThumbnailAccepted(input.thumbnailUrl, isUrl)
    ensures r.Ok? ==> r.value == CourseDraft(Trim(input.title.s), Presence(input.description), Presence(input.thumbnailUrl))
    ensures r.Err? ==> r.error != []
  {
    var t := Title(input.title);
    var d := DraftDescription("description", input.description, DescriptionTooShort, DescriptionTooLong);
    var th := Thumbnail(input.thumbnailUrl, isUrl);
    if t.Valid? && d.Valid? && th.Valid? then Ok(CourseDraft(t.value, d.value, th.value))
    else Err(t.Issues() + d.Issues() + th.Issues())
  }

  /** `coursePublishSchema.safeParse`: the draft schema with the stricter description. */
  function PublishSchema(input: CourseInput, isUrl: string -> bool): (r: Result<CoursePublish, seq<Issue>>)
    ensures r.Ok? <==> TitleAccepted(input.title) && PublishDescriptionAccepted(input.description)
                       && ThumbnailAccepted(input.thumbnailUrl, isUrl)
    ensures r.Ok? ==> r.value == CoursePublish(Trim(input.title.s), Trim(input.description.s), Presence(input.thumbnailUrl))
    ensures r.Err? ==> r.error != []
    ensures !PublishDescriptionAccepted(input.description) ==> r.Err? && HasIssueOn(r.error, "description")
  {
    var t := Title(input.title);
    var d := PublishDescription("description", input.description, DescriptionRequired, DescriptionTooShort, DescriptionTooLong);
    var th := Thumbnail(input.thumbnailUrl, isUrl);
    if t.Valid? && d.Valid? && th.Valid? then Ok(CoursePublish(t.value, d.value, th.value))
    else
      var issues := t.Issues() + d.Issues() + th.Issues();
      HasIssueOnAppend(t.Issues(), d.Issues(), "description");
      HasIssueOnAppend(t.Issues() + d.Issues(), th.Issues(), "description");
      assert !d.Valid? ==> d.issues[0].path == "description";
      Err(issues)
  }

  /** A whitespace-only title is rejected, with the "enter a title" message. */
  lemma BlankTitleRejected(s: string)
    requires IsBlank(s)
    ensures Title(Str(s)) == Dirty("", [Issue("title", TitleRequired)])
  {
    TrimEmptyIffBlank(s);
  }

  /** A draft description whose trimmed text has 1 to 9 UTF-16 units is rejected with the "too short" message. */
  lemma ShortDraftDescriptionRejected(s: string)
    requires 1 <= Utf16Length(Trim(s)) <= 9
    ensures DraftDescription("description", Str(s), DescriptionTooShort, DescriptionTooLong)
            == Dirty(Some(Trim(s)), [Issue("description", DescriptionTooShort)])
  {
    assert DescriptionRefineIssues("description", Utf16Length(Trim(s)), DescriptionTooShort, DescriptionTooLong)
           == [Issue("description", DescriptionTooShort)];
  }

  /** Publishing without a description fails, with the "description required" message on `description`. */
  lemma PublishWithoutDescriptionRejected(input: CourseInput, isUrl: string -> bool)
    requires input.description.Undefined?
    ensures PublishSchema(input, isUrl).Err?
    ensures Issue("description", DescriptionRequired) in PublishSchema(input, isUrl).error
  {
    var t := Title(input.title);
    assert PublishDescription("description", input.description, DescriptionRequired, DescriptionTooShort, DescriptionTooLong).issues
      == [Issue("description", DescriptionRequired)];
    assert PublishSchema(input, isUrl).error[|t.Issues()|] == Issue("description", DescriptionRequired);
  }

  /**
   * The publish schema is a strengthening of the draft schema: whatever it
   * accepts the draft schema accepts too, with the same title and
   * thumbnail and the (now present) description.
   */
  lemma PublishImpliesDraft(input: CourseInput, isUrl: string -> bool)
    requires PublishSchema(input, isUrl).Ok?
    ensures DraftSchema(input, isUrl).Ok?
    ensures var p, d := PublishSchema(input, isUrl).value, DraftSchema(input, isUrl).value;
            d.title == p.title && d.thumbnailUrl == p.thumbnailUrl && d.description == Some(p.description)
  {
    TrimEmptyIffBlank(input.description.s);
  }

  /** The input a draft would be re-submitted as: present strings as strings, `undefined` as missing. */
  function AsInput(d: CourseDraft): CourseInput {
    CourseInput(Str(d.title),
                if d.description.Some? then Str(d.description.value) else Undefined,
                if d.thumbnailUrl.Some? then Str(d.thumbnailUrl.value) else Undefined)
  }

  /** Trimming a string that is not blank leaves a string that is not blank. */
  lemma TrimKeepsContent(s: string)
    requires !IsBlank(s)
    ensures !IsBlank(Trim(s)) && Trim(Trim(s)) == Trim(s)
  {
    TrimIdempotent(s);
    TrimEmptyIffBlank(s);
    TrimEmptyIffBlank(Trim(s));
  }

  /** Re-submitting the trimmed text of a non-blank field normalises to the same value. */
  lemma PresenceStable(v: Value)
    requires v.Str? && !IsBlank(v.s)
    ensures Presence(Str(Trim(v.s))) == Presence(v)
  {
    TrimKeepsContent(v.s);
  }

  lemma DraftDescriptionStable(v: Value)
    requires v.Str? && !IsBlank(v.s) && DraftDescriptionAccepted(v)
    ensures DraftDescriptionAccepted(Str(Trim(v.s)))
  {
    TrimKeepsContent(v.s);
  }

  lemma ThumbnailStable(v: Value, isUrl: string -> bool)
    requires v.Str? && !IsBlank(v.s) && ThumbnailAccepted(v, isUrl)
    ensures ThumbnailAccepted(Str(Trim(v.s)), isUrl)
  {
    TrimKeepsContent(v.s);
  }

  lemma TitleStable(s: string)
    requires TitleAccepted(Str(s))
    ensures TitleAccepted(Str(Trim(s))) && Trim(Trim(s)) == Trim(s)
  {
    TrimIdempotent(s);
  }

  /** The fields of a normalised draft, submitted again, are accepted and normalise to themselves. */
  lemma ReinputStable(input: CourseInput, isUrl: string -> bool)
    requires TitleAccepted(input.title) && DraftDescriptionAccepted(input.description)
    requires ThumbnailAccepted(input.thumbnailUrl, isUrl)
    ensures var again := AsInput(CourseDraft(Trim(input.title.s), Presence(input.description), Presence(input.thumbnailUrl)));
            && TitleAccepted(again.title) && Trim(again.title.s) == Trim(input.title.s)
            && DraftDescriptionAccepted(again.description) && Presence(again.description) == Presence(input.description)
            && ThumbnailAccepted(again.thumbnailUrl, isUrl) && Presence(again.thumbnailUrl) == Presence(input.thumbnailUrl)
  {
    var again := AsInput(CourseDraft(Trim(input.title.s), Presence(input.description), Presence(input.thumbnailUrl)));
    assert again.title == Str(Trim(input.title.s));
    TitleStable(input.title.s);
    if Presence(input.description).Some? {
      PresenceStable(input.description);
      DraftDescriptionStable(input.description);
    }
    if Presence(input.thumbnailUrl).Some? {
      PresenceStable(input.thumbnailUrl);
      ThumbnailStable(input.thumbnailUrl, isUrl);
    }
  }

  /** Draft normalisation is idempotent: validating a draft's own output gives it back unchanged. */
  lemma DraftIdempotent(input: CourseInput, isUrl: string -> bool)
    requires DraftSchema(input, isUrl).Ok?
    ensures DraftSchema(AsInput(DraftSchema(input, isUrl).value), isUrl) == DraftSchema(input, isUrl)
  {
    ReinputStable(input, isUrl);
  }
}
