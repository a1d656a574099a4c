/**
 * The submission schema: required content, trimmed, 1..10000 long, and an
 * optional file URL that may also be the empty string. `isUrl` is zod's
 * `.url()` check, taken as given.
 */
module SubmissionValidation {
  import opened Wrappers
  import opened Strings
  import opened Schema

  const ContentRequired := "제출 내용을 입력해주세요."
  const ContentTooLong := "제출 내용은 10000자 이하여야 합니다."
  const FileUrlInvalid := "유효한 URL을 입력해주세요."

  datatype SubmissionInput = SubmissionInput(content: Value, fileUrl: Value)

  datatype Submission = Submission(content: string, fileUrl: Option<string>)

  predicate ContentAccepted(v: Value) {
    v.Str? && 1 <= Utf16Length(Trim(v.s)) <= 10000
  }

  /** Omitted, exactly "", or a string that passes the URL check. */
  predicate FileUrlAccepted(v: Value, isUrl: string -> bool) {
    v.Undefined? || (v.Str? && (v.s == "" || isUrl(v.s)))
  }

  /** `contentSchema`. */
  function Content(v: Value): (p: Parsed<string>)
    ensures p.Valid? <==> ContentAccepted(v)
    ensures p.Valid? ==> p.value == Trim(v.s)
    ensures v.Undefined? ==> p == Aborted([Issue("content", ContentRequired)])
    ensures OnlyOn(p.Issues(), "content") && (!p.Valid? ==> p.issues != [])
  {
    TrimmedString("content", v, Some(ContentRequired), 1, ContentRequired, 10000, ContentTooLong)
  }

  /** `z.string().url(...).optional()`, the first option of `fileUrlSchema`. */
  function OptionalUrl(v: Value, isUrl: string -> bool): (p: Parsed<Option<string>>)
    ensures p.Valid? <==> v.Undefined? || (v.Str? && isUrl(v.s))
    ensures OnlyOn(p.Issues(), "fileUrl")
  {
    match v
    case Undefined => Valid(None)
    case Str(s) => if isUrl(s) then Valid(Some(s)) else Dirty(Some(s), [Issue("fileUrl", FileUrlInvalid)])
    case _ => Aborted([TypeIssue("fileUrl", "string", v, None)])
  }

  /** `fileUrlSchema`: the optional URL, or the literal "". */
  function FileUrl(v: Value, isUrl: string -> bool): (p: Parsed<Option<string>>)
    ensures p.Valid? <==> FileUrlAccepted(v, isUrl)
    ensures p.Valid? ==> p.value == (if v.Str? then Some(v.s) else None)
    ensures v.Str? && v.s != "" && !isUrl(v.s) ==> p == Dirty(Some(v.s), [Issue("fileUrl", FileUrlInvalid)])
    ensures OnlyOn(p.Issues(), "fileUrl") && (!p.Valid? ==> p.issues != [])
  {
    OrEmptyLiteral("fileUrl", v, OptionalUrl(v, isUrl))
  }

  /** `submissionCreateSchema.safeParse`. */
  function CreateSchema(input: SubmissionInput, isUrl: string -> bool): (r: Result<Submission, seq<Issue>>)
    ensures r.Ok? <==> ContentAccepted(input.content) && FileUrlAccepted(input.fileUrl, isUrl)
    ensures r.Ok? ==> r.value.content == Trim(input.content.s)
    ensures r.Ok? ==> r.value.fileUrl == (if input.fileUrl.Str? then Some(input.fileUrl.s) else None)
    ensures r.Err? ==> r.error != []
  {
    var c := Content(input.content);
    var f := FileUrl(input.fileUrl, isUrl);
    if c.Valid? && f.Valid? then Ok(Submission(c.value, f.value)) else Err(c.Issues() + f.Issues())
  }

  /** Whitespace-only content is rejected with the "enter content" message. */
  lemma BlankContentRejected(s: string)
    requires IsBlank(s)
    ensures Content(Str(s)) == Dirty("", [Issue("content", ContentRequired)])
  {
    TrimEmptyIffBlank(s);
  }

  /** An accepted submission's content is trimmed, and its file URL is exactly the text given. */
  lemma AcceptedOutputShape(input: SubmissionInput, isUrl: string -> bool)
    requires CreateSchema(input, isUrl).Ok?
    ensures IsTrimmed(CreateSchema(input, isUrl).value.content)
    ensures CreateSchema(input, isUrl).value.fileUrl.Some? ==> input.fileUrl == Str(CreateSchema(input, isUrl).value.fileUrl.value)
  {
  }

  /** Submissions whose only problem is the file URL report their issues on `fileUrl` alone. */
  lemma BadFileUrlReportedOnFileUrl(input: SubmissionInput, isUrl: string -> bool)
    requires ContentAccepted(input.content) && !FileUrlAccepted(input.fileUrl, isUrl)
    ensures CreateSchema(input, isUrl).Err?
    ensures OnlyOn(CreateSchema(input, isUrl).error, "fileUrl")
  {
  }
}
