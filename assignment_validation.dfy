/**
 * The assignment schemas: the course title/description rules with their
 * own messages, a due date that must parse, an optional late deadline,
 * the `allowLateSubmission` flag, and the object-level rule that a late
 * deadline must lie strictly after the due date when late submission is
 * allowed. `Date.parse` and `toISOString` are taken as given (`Dates`).
 */
module AssignmentValidation {
  import opened Wrappers
  import opened Strings
  import opened Schema
  import opened CourseValidation

  const TitleRequired := "과제 제목을 입력해주세요."
  const TitleTooLong := "과제 제목은 200자 이하여야 합니다."
  const DescriptionRequired := "과제 설명을 입력해주세요."
  const DescriptionTooShort := "과제 설명은 10자 이상이어야 합니다."
  const DescriptionTooLong := "과제 설명은 5000자 이하여야 합니다."
  const DueDateRequired := "마감일을 입력해주세요."
  const InvalidDate := "유효한 날짜를 입력해주세요."
  const LateMustFollowDue := "지각 마감일은 정시 마감일보다 늦어야 합니다."

  /**
   * The date primitives: `parse` is `Date.parse` (milliseconds since the
   * epoch, `None` for NaN; `new Date(s)` reads a string the same way),
   * `iso` is `toISOString`.
   */
  datatype Dates = Dates(parse: string -> Option<int>, iso: int -> string)

  /**
   * Two facts about the real primitives the lemmas rely on: the empty
   * string is not a date, and for every time some string parses to, its
   * ISO form parses back to that time.
   */
  ghost predicate Coherent(dates: Dates) {
    && dates.parse("") == None
    && forall s :: dates.parse(s).Some? ==> dates.parse(dates.iso(dates.parse(s).value)) == dates.parse(s)
  }

  datatype AssignmentInput = AssignmentInput(
    title: Value,
    description: Value,
    dueDate: Value,
    allowLateSubmission: Value,
    lateSubmissionDeadline: Value)

  datatype AssignmentDraft = AssignmentDraft(
    title: string,
    description: Option<string>,
    dueDate: string,
    allowLateSubmission: bool,
    lateSubmissionDeadline: Option<string>)

  datatype AssignmentPublish = AssignmentPublish(
    title: string,
    description: string,
    dueDate: string,
    allowLateSubmission: bool,
    lateSubmissionDeadline: Option<string>)

  // Independent statements of what each new field accepts and yields.

  predicate DueDateAccepted(v: Value, dates: Dates) {
    v.Str? && dates.parse(v.s).Some?
  }

  /** Missing or "" is no deadline; any other string must parse. */
  predicate NoDeadline(v: Value) {
    v.Undefined? || (v.Str? && v.s == "")
  }

  predicate LateDeadlineAccepted(v: Value, dates: Dates) {
    NoDeadline(v) || (v.Str? && dates.parse(v.s).Some?)
  }

  predicate AllowLateAccepted(v: Value) {
    v.Undefined? || v.Bool?
  }

  /** The flag as the schema reads it: omitted means `false`. */
  predicate AllowsLate(v: Value) {
    v.Bool? && v.b
  }

  /** The time an input date string stands for, when it parses. */
  function TimeOf(v: Value, dates: Dates): Option<int> {
    if v.Str? then dates.parse(v.s) else None
  }

  /** `new Date(a) > new Date(b)`: false whenever either side is an invalid date. */
  predicate Later(dates: Dates, a: string, b: string) {
    dates.parse(a).Some? && dates.parse(b).Some? && dates.parse(a).value > dates.parse(b).value
  }

  /** `titleSchema` with the assignment messages. */
  function Title(v: Value): (p: Parsed<string>)
    ensures p.Valid? <==> TitleAccepted(v)
    ensures p.Valid? ==> p.value == Trim(v.s)
    ensures OnlyOn(p.Issues(), "title") && (!p.Valid? ==> p.issues != [])
  {
    TrimmedString("title", v, Some(TitleRequired), 1, TitleRequired, 200, TitleTooLong)
  }

  /** `dueDateSchema`: a required string that must parse, normalised to ISO; a dirty value stays as written. */
  function DueDate(v: Value, dates: Dates): (p: Parsed<string>)
    ensures p.Valid? <==> DueDateAccepted(v, dates)
    ensures p.Valid? ==> p.value == dates.iso(dates.parse(v.s).value)
    ensures p.Dirty? ==> v.Str? && p.value == v.s && p.issues == [Issue("dueDate", InvalidDate)]
    ensures p.Aborted? <==> !v.Str?
    ensures v.Undefined? ==> p == Aborted([Issue("dueDate", DueDateRequired)])
    ensures OnlyOn(p.Issues(), "dueDate") && (!p.Valid? ==> p.issues != [])
  {
    match v
    case Str(s) =>
      (match dates.parse(s)
       case Some(t) => Valid(dates.iso(t))
       case None => Dirty(s, [Issue("dueDate", InvalidDate)]))
    case _ => Aborted([TypeIssue("dueDate", "string", v, Some(DueDateRequired))])
  }

  /** `lateSubmissionDeadlineSchema`: missing or "" gives no deadline, anything else must parse and becomes ISO. */
  function LateDeadline(v: Value, dates: Dates): (p: Parsed<Option<string>>)
    ensures p.Valid? <==> LateDeadlineAccepted(v, dates)
    ensures p.Valid? ==> p.value == (if NoDeadline(v) then None else Some(dates.iso(dates.parse(v.s).value)))
    ensures p.Dirty? ==> v.Str? && v.s != "" && p.value == Some(v.s) && p.issues == [Issue("lateSubmissionDeadline", InvalidDate)]
    ensures p.Aborted? <==> !v.Str? && !v.Undefined?
    ensures OnlyOn(p.Issues(), "lateSubmissionDeadline") && (!p.Valid? ==> p.issues != [])
  {
    match v
    case Undefined => Valid(None)
    case Str(s) =>
      if s == "" then Valid(None)
      else
        (match dates.parse(s)
         case Some(t) => Valid(Some(dates.iso(t)))
         case None => Dirty(Some(s), [Issue("lateSubmissionDeadline", InvalidDate)]))
    case _ => Aborted([TypeIssue("lateSubmissionDeadline", "string", v, None)])
  }

  /**
   * The object-level refine, on the values the fields produced (a dirty
   * field shows its unnormalised text): passes when late submission is not
   * allowed, fails when there is no deadline, otherwise compares the dates.
   */
  predicate LateRule(allow: bool, late: Option<string>, due: string, dates: Dates) {
    !allow || (late.Some? && late.value != "" && Later(dates, late.value, due))
  }

  /** The refine's verdict on fields none of which aborted, as the issues it adds. */
  function RefineIssues(due: Parsed<string>, allow: Parsed<bool>, late: Parsed<Option<string>>, dates: Dates): (r: seq<Issue>)
    requires !due.Aborted? && !allow.Aborted? && !late.Aborted?
    ensures r == [] <==> LateRule(allow.value, late.value, due.value, dates)
    ensures OnlyOn(r, "lateSubmissionDeadline")
  {
    if LateRule(allow.value, late.value, due.value, dates) then [] else [Issue("lateSubmissionDeadline", LateMustFollowDue)]
  }

  /** The normalised deadline of a well-formed late-deadline field. */
  function NormalisedDeadline(v: Value, dates: Dates): Option<string>
    requires LateDeadlineAccepted(v, dates)
  {
    if NoDeadline(v) then None else Some(dates.iso(dates.parse(v.s).value))
  }

  /** The cross-field rule applied to the normalised values of well-formed fields. */
  predicate LateOrderAccepted(input: AssignmentInput, dates: Dates)
    requires DueDateAccepted(input.dueDate, dates) && LateDeadlineAccepted(input.lateSubmissionDeadline, dates)
  {
    LateRule(AllowsLate(input.allowLateSubmission), NormalisedDeadline(input.lateSubmissionDeadline, dates),
             dates.iso(dates.parse(input.dueDate.s).value), dates)
  }

  /**
   * The object schema around five parsed fields: every field's issues in
   * key order; when no field aborted, the refine runs and may add its issue;
   * the object is valid when every field is and the refine passes.
   */
  function Combine<D>(t: Parsed<string>, d: Parsed<D>, du: Parsed<string>, al: Parsed<bool>,
                      la: Parsed<Option<string>>, dates: Dates): (r: Result<(string, D, string, bool, Option<string>), seq<Issue>>)
    requires !t.Valid? ==> t.issues != []
    requires !d.Valid? ==> d.issues != []
    requires !du.Valid? ==> du.issues != []
    requires !al.Valid? ==> al.issues != []
    requires !la.Valid? ==> la.issues != []
    ensures r.Ok? <==> t.Valid? && d.Valid? && du.Valid? && al.Valid? && la.Valid? && LateRule(al.value, la.value, du.value, dates)
    ensures r.Ok? ==> r.value == (t.value, d.value, du.value, al.value, la.value)
    ensures r.Err? ==> r.error != []
    ensures r.Err? && !t.Aborted? && !d.Aborted? && !du.Aborted? && !al.Aborted? && !la.Aborted?
            && !LateRule(al.value, la.value, du.value, dates)
            ==> r.error[|r.error| - 1] == Issue("lateSubmissionDeadline", LateMustFollowDue)
  {
    var fieldIssues := t.Issues() + d.Issues() + du.Issues() + al.Issues() + la.Issues();
    if t.Aborted? || d.Aborted? || du.Aborted? || al.Aborted? || la.Aborted? then Err(fieldIssues)
    else if t.Valid? && d.Valid? && du.Valid? && al.Valid? && la.Valid? && LateRule(al.value, la.value, du.value, dates) then
      Ok((t.value, d.value, du.value, al.value, la.value))
    else Err(fieldIssues + RefineIssues(du, al, la, dates))
  }

  /** `assignmentDraftSchema.safeParse`. */
  function DraftSchema(input: AssignmentInput, dates: Dates): (r: Result<AssignmentDraft, seq<Issue>>)
    ensures r.Ok? <==> && TitleAccepted(input.title) && DraftDescriptionAccepted(input.description)
                       && DueDateAccepted(input.dueDate, dates) && AllowLateAccepted(input.allowLateSubmission)
                       && LateDeadlineAccepted(input.lateSubmissionDeadline, dates)
                       && LateOrderAccepted(input, dates)
    ensures r.Ok? ==> r.value == AssignmentDraft(Trim(input.title.s), Presence(input.description),
                                                 dates.iso(dates.parse(input.dueDate.s).value),
                                                 AllowsLate(input.allowLateSubmission),
                                                 NormalisedDeadline(input.lateSubmissionDeadline, dates))
    ensures r.Err? ==> r.error != []
  {
    var c := Combine(Title(input.title),
                     DraftDescription("description", input.description, DescriptionTooShort, DescriptionTooLong),
                     DueDate(input.dueDate, dates),
                     BooleanDefaultFalse("allowLateSubmission", input.allowLateSubmission),
                     LateDeadline(input.lateSubmissionDeadline, dates), dates);
    if c.Ok? then Ok(AssignmentDraft(c.value.0, c.value.1, c.value.2, c.value.3, c.value.4)) else Err(c.error)
  }

  /** `assignmentPublishSchema.safeParse`: the draft schema with a required description. */
  function PublishSchema(input: AssignmentInput, dates: Dates): (r: Result<AssignmentPublish, seq<Issue>>)
    ensures r.Ok? <==> && TitleAccepted(input.title) && PublishDescriptionAccepted(input.description)
                       && DueDateAccepted(input.dueDate, dates) && AllowLateAccepted(input.allowLateSubmission)
                       && LateDeadlineAccepted(input.lateSubmissionDeadline, dates)
                       && LateOrderAccepted(input, dates)
    ensures r.Ok? ==> r.value == AssignmentPublish(Trim(input.title.s), Trim(input.description.s),
                                                   dates.iso(dates.parse(input.dueDate.s).value),
                                                   AllowsLate(input.allowLateSubmission),
                                                   NormalisedDeadline(input.lateSubmissionDeadline, dates))
    ensures r.Err? ==> r.error != []
  {
    var c := Combine(Title(input.title),
                     PublishDescription("description", input.description, DescriptionRequired, DescriptionTooShort, DescriptionTooLong),
                     DueDate(input.dueDate, dates),
                     BooleanDefaultFalse("allowLateSubmission", input.allowLateSubmission),
                     LateDeadline(input.lateSubmissionDeadline, dates), dates);
    if c.Ok? then Ok(AssignmentPublish(c.value.0, c.value.1, c.value.2, c.value.3, c.value.4)) else Err(c.error)
  }

  /** Every field of the input is well formed on its own. */
  predicate FieldsAccepted(input: AssignmentInput, dates: Dates) {
    && TitleAccepted(input.title) && DraftDescriptionAccepted(input.description)
    && DueDateAccepted(input.dueDate, dates) && AllowLateAccepted(input.allowLateSubmission)
    && LateDeadlineAccepted(input.lateSubmissionDeadline, dates)
  }

  /** An omitted `allowLateSubmission` is read as `false`. */
  lemma AllowLateDefaultsToFalse(input: AssignmentInput, dates: Dates)
    requires input.allowLateSubmission.Undefined? && DraftSchema(input, dates).Ok?
    ensures !DraftSchema(input, dates).value.allowLateSubmission
  {
  }

  /** With late submission off, the cross-field rule never rejects: only the fields themselves matter. */
  lemma LateOffIgnoresDeadlineOrder(input: AssignmentInput, dates: Dates)
    requires !AllowsLate(input.allowLateSubmission)
    ensures DraftSchema(input, dates).Ok? <==> FieldsAccepted(input, dates)
  {
  }

  /** The ISO form of a parsed time is never the empty string and reads back as the same time. */
  lemma IsoReadsBack(dates: Dates, s: string)
    requires Coherent(dates) && dates.parse(s).Some?
    ensures dates.iso(dates.parse(s).value) != ""
    ensures dates.parse(dates.iso(dates.parse(s).value)) == dates.parse(s)
  {
  }

  /**
   * With late submission on and well-formed fields, the draft is accepted
   * exactly when a deadline is given and its time is strictly after the due
   * time.
   */
  lemma LateOnNeedsLaterDeadline(input: AssignmentInput, dates: Dates)
    requires Coherent(dates) && FieldsAccepted(input, dates) && AllowsLate(input.allowLateSubmission)
    ensures DraftSchema(input, dates).Ok?
            <==> !NoDeadline(input.lateSubmissionDeadline)
                 && TimeOf(input.lateSubmissionDeadline, dates).value > TimeOf(input.dueDate, dates).value
  {
    assert DraftSchema(input, dates).Ok? <==> LateOrderAccepted(input, dates);
    LateOrderMeansLater(input, dates);
  }

  /** The cross-field rule, with late submission on, compares the two times the inputs stand for. */
  lemma LateOrderMeansLater(input: AssignmentInput, dates: Dates)
    requires Coherent(dates) && AllowsLate(input.allowLateSubmission)
    requires DueDateAccepted(input.dueDate, dates) && LateDeadlineAccepted(input.lateSubmissionDeadline, dates)
    ensures LateOrderAccepted(input, dates)
            <==> !NoDeadline(input.lateSubmissionDeadline)
                 && TimeOf(input.lateSubmissionDeadline, dates).value > TimeOf(input.dueDate, dates).value
  {
    IsoReadsBack(dates, input.dueDate.s);
    if !NoDeadline(input.lateSubmissionDeadline) {
      IsoReadsBack(dates, input.lateSubmissionDeadline.s);
    }
  }

  /**
   * With late submission on and well-formed fields, a missing deadline or
   * one not strictly after the due time (an equal time included) is
   * rejected, and the rejection is reported on `lateSubmissionDeadline`.
   */
  lemma LateNotAfterDueRejected(input: AssignmentInput, dates: Dates)
    requires Coherent(dates) && FieldsAccepted(input, dates) && AllowsLate(input.allowLateSubmission)
    requires NoDeadline(input.lateSubmissionDeadline)
             || TimeOf(input.lateSubmissionDeadline, dates).value <= TimeOf(input.dueDate, dates).value
    ensures DraftSchema(input, dates).Err?
    ensures Issue("lateSubmissionDeadline", LateMustFollowDue) in DraftSchema(input, dates).error
  {
    LateOnNeedsLaterDeadline(input, dates);
    IsoReadsBack(dates, input.dueDate.s);
    if !NoDeadline(input.lateSubmissionDeadline) {
      IsoReadsBack(dates, input.lateSubmissionDeadline.s);
    }
  }

  /**
   * The publish schema strengthens the draft schema: whatever it accepts
   * the draft schema accepts, with the same values and the description now
   * present.
   */
  lemma PublishImpliesDraft(input: AssignmentInput, dates: Dates)
    requires PublishSchema(input, dates).Ok?
    ensures DraftSchema(input, dates).Ok?
    ensures var p, d := PublishSchema(input, dates).value, DraftSchema(input, dates).value;
            && d.title == p.title && d.description == Some(p.description) && d.dueDate == p.dueDate
            && d.allowLateSubmission == p.allowLateSubmission && d.lateSubmissionDeadline == p.lateSubmissionDeadline
  {
    TrimEmptyIffBlank(input.description.s);
  }
}
