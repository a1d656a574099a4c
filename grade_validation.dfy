/**
 * The grade schemas: a required score between 0 and 100 inclusive (any
 * JavaScript number, fractions included), optional feedback of at most
 * 5000 UTF-16 units that may also be "", and, when creating, a
 * `requestResubmit` flag that defaults to false.
 */
module GradeValidation {
  import opened Wrappers
  import opened Strings
  import opened Schema

  const ScoreRequired := "점수를 입력해주세요"
  const ScoreTooLow := "점수는 0 이상이어야 합니다"
  const ScoreTooHigh := "점수는 100 이하여야 합니다"
  const FeedbackTooLong := "피드백은 5000자 이하여야 합니다"

  datatype GradeInput = GradeInput(score: Value, feedback: Value, requestResubmit: Value)

  datatype GradeCreate = GradeCreate(score: real, feedback: Option<string>, requestResubmit: bool)

  datatype GradeUpdate = GradeUpdate(score: real, feedback: Option<string>)

  /** A finite number in 0..100, both ends included. */
  predicate ScoreAccepted(v: Value) {
    v.Num? && 0.0 <= v.n <= 100.0
  }

  predicate FeedbackAccepted(v: Value) {
    v.Undefined? || (v.Str? && Utf16Length(v.s) <= 5000)
  }

  /**
   * `z.number({ required_error }).min(0).max(100)`: NaN is not a number to
   * zod; an infinity is, and fails the bound on its side. A dirty result
   * keeps the input value.
   */
  function Score(v: Value): (p: Parsed<Value>)
    ensures p.Valid? <==> ScoreAccepted(v)
    ensures p.Valid? ==> p.value == v
    ensures p.Aborted? <==> !v.Num? && !v.Infinity?
    ensures v.Undefined? ==> p == Aborted([Issue("score", ScoreRequired)])
    ensures v.Num? && v.n < 0.0 ==> p == Dirty(v, [Issue("score", ScoreTooLow)])
    ensures v.Num? && v.n > 100.0 ==> p == Dirty(v, [Issue("score", ScoreTooHigh)])
    ensures OnlyOn(p.Issues(), "score") && (!p.Valid? ==> p.issues != [])
  {
    match v
    case Num(n) =>
      var issues := (if n < 0.0 then [Issue("score", ScoreTooLow)] else [])
                    + (if n > 100.0 then [Issue("score", ScoreTooHigh)] else []);
      if issues == [] then Valid(v) else Dirty(v, issues)
    case Infinity(negative) => Dirty(v, [Issue("score", if negative then ScoreTooLow else ScoreTooHigh)])
    case _ => Aborted([TypeIssue("score", "number", v, Some(ScoreRequired))])
  }

  /** `z.string().max(5000).optional()`, the first option of the feedback union. */
  function OptionalFeedback(v: Value): (p: Parsed<Option<string>>)
    ensures p.Valid? <==> FeedbackAccepted(v)
    ensures OnlyOn(p.Issues(), "feedback")
  {
    match v
    case Undefined => Valid(None)
    case Str(s) => if Utf16Length(s) <= 5000 then Valid(Some(s)) else Dirty(Some(s), [Issue("feedback", FeedbackTooLong)])
    case _ => Aborted([TypeIssue("feedback", "string", v, None)])
  }

  /** The feedback field: optional text of at most 5000 units, or "". */
  function Feedback(v: Value): (p: Parsed<Option<string>>)
    ensures p.Valid? <==> FeedbackAccepted(v)
    ensures p.Valid? ==> p.value == (if v.Str? then Some(v.s) else None)
    ensures OnlyOn(p.Issues(), "feedback") && (!p.Valid? ==> p.issues != [])
  {
    OrEmptyLiteral("feedback", v, OptionalFeedback(v))
  }

  /** `gradeCreateSchema.safeParse`. */
  function CreateSchema(input: GradeInput): (r: Result<GradeCreate, seq<Issue>>)
    ensures r.Ok? <==> ScoreAccepted(input.score) && FeedbackAccepted(input.feedback)
                       && (input.requestResubmit.Undefined? || input.requestResubmit.Bool?)
    ensures r.Ok? ==> r.value == GradeCreate(input.score.n, if input.feedback.Str? then Some(input.feedback.s) else None,
                                             input.requestResubmit.Bool? && input.requestResubmit.b)
    ensures r.Err? ==> r.error != []
  {
    var s := Score(input.score);
    var f := Feedback(input.feedback);
    var q := BooleanDefaultFalse("requestResubmit", input.requestResubmit);
    if s.Valid? && f.Valid? && q.Valid? then Ok(GradeCreate(s.value.n, f.value, q.value))
    else Err(s.Issues() + f.Issues() + q.Issues())
  }

  /** `gradeUpdateSchema.safeParse`: score and feedback only; a `requestResubmit` key is stripped. */
  function UpdateSchema(input: GradeInput): (r: Result<GradeUpdate, seq<Issue>>)
    ensures r.Ok? <==> ScoreAccepted(input.score) && FeedbackAccepted(input.feedback)
    ensures r.Ok? ==> r.value == GradeUpdate(input.score.n, if input.feedback.Str? then Some(input.feedback.s) else None)
    ensures r.Err? ==> r.error != []
  {
    var s := Score(input.score);
    var f := Feedback(input.feedback);
    if s.Valid? && f.Valid? then Ok(GradeUpdate(s.value.n, f.value))
    else Err(s.Issues() + f.Issues())
  }

  /** Both bounds are inclusive and a fractional score inside them is accepted. */
  lemma ScoreBoundsInclusive()
    ensures Score(Num(0.0)).Valid? && Score(Num(100.0)).Valid? && Score(Num(99.5)).Valid?
    ensures Score(Num(-0.5)).Dirty? && Score(Num(100.5)).Dirty?
    ensures Score(NaN).Aborted? && Score(Infinity(false)).Dirty?
  {
  }

  /** An omitted `requestResubmit` is read as `false`. */
  lemma ResubmitDefaultsToFalse(input: GradeInput)
    requires input.requestResubmit.Undefined? && CreateSchema(input).Ok?
    ensures !CreateSchema(input).value.requestResubmit
  {
  }

  /**
   * The update schema applies the create schema's score and feedback rules
   * and ignores `requestResubmit`: it accepts exactly the inputs the create
   * schema accepts once the flag is dropped, with the same score and feedback.
   */
  lemma UpdateMatchesCreate(input: GradeInput)
    ensures UpdateSchema(input).Ok? <==> CreateSchema(input.(requestResubmit := Undefined)).Ok?
    ensures UpdateSchema(input).Ok? ==>
            && UpdateSchema(input).value.score == CreateSchema(input.(requestResubmit := Undefined)).value.score
            && UpdateSchema(input).value.feedback == CreateSchema(input.(requestResubmit := Undefined)).value.feedback
  {
  }
}
