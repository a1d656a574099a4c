/**
 * The signup endpoint: the JSON body is parsed, checked against the
 * signup schema (email, password of 8..128 units, name of 1..100 units),
 * passed to the auth service, and the service's answer is turned into a
 * reply: 201 with the new user id, or an error code with a status. The
 * email check and `toLowerCase` are taken as given.
 */
module SignupRoute {
  import opened Wrappers
  import opened Strings
  import opened Schema

  const BadBody := "잘못된 요청 본문입니다"
  const InvalidInput := "입력값이 유효하지 않습니다"
  const EmailInvalid := "유효한 이메일을 입력해주세요"
  const PasswordTooShort := "비밀번호는 8자 이상이어야 합니다"
  const PasswordTooLong := "비밀번호는 128자 이하여야 합니다"
  const NameRequired := "이름을 입력해주세요"
  const DefaultAuthMessage := "회원가입 처리 중 오류가 발생했습니다"
  const CheckPasswordPolicy := "비밀번호 정책을 확인해주세요"
  const EmailTaken := "이미 등록된 이메일입니다"
  const TryAgainLater := "일시적인 서버 오류입니다. 잠시 후 다시 시도해주세요"
  const NoSignupResult := "회원가입 결과를 확인할 수 없습니다"

  /** The request body: not JSON at all, JSON that is not an object, or an object's three fields. */
  datatype Body = Unparsable | NotAnObject(v: Value) | Fields(email: Value, password: Value, name: Value)

  datatype Signup = Signup(email: string, password: string, name: string)

  /** An auth-service error, whose message may be missing. */
  datatype AuthError = AuthError(message: Option<string>)

  /** The created user: its id (possibly missing) and the length of its `identities` array, when present. */
  datatype CreatedUser = CreatedUser(id: Option<string>, identities: Option<nat>)

  /** What `auth.signUp` did: throw, or answer with an error and/or a user. */
  datatype SignUpOutcome = Threw | Replied(error: Option<AuthError>, user: Option<CreatedUser>)

  datatype ErrorCode = ValidationError | EmailAlreadyExists | WeakPassword | ServiceUnavailable

  datatype Payload =
    | ErrorPayload(code: ErrorCode, message: string, details: Option<map<string, seq<string>>>)
    | SignupSuccess(userId: string, onboarded: bool, needsEmailConfirmation: bool)

  datatype Reply = Reply(status: int, payload: Payload)

  predicate SignupAccepted(b: Body, isEmail: string -> bool) {
    && b.Fields?
    && b.email.Str? && isEmail(b.email.s)
    && b.password.Str? && 8 <= Utf16Length(b.password.s) <= 128
    && b.name.Str? && 1 <= Utf16Length(b.name.s) <= 100
  }

  /** `z.string().email(...)`. */
  function Email(v: Value, isEmail: string -> bool): (p: Parsed<string>)
    ensures p.Valid? <==> v.Str? && isEmail(v.s)
    ensures p.Valid? ==> p.value == v.s
    ensures OnlyOn(p.Issues(), "email") && (!p.Valid? ==> p.issues != [])
  {
    match v
    case Str(s) => if isEmail(s) then Valid(s) else Dirty(s, [Issue("email", EmailInvalid)])
    case _ => Aborted([TypeIssue("email", "string", v, None)])
  }

  /** `signupSchema.safeParse` on a parsed body. */
  function SignupSchema(b: Body, isEmail: string -> bool): (r: Result<Signup, seq<Issue>>)
    requires !b.Unparsable?
    ensures r.Ok? <==> SignupAccepted(b, isEmail)
    ensures r.Ok? ==> r.value == Signup(b.email.s, b.password.s, b.name.s)
    ensures r.Err? ==> r.error != []
    ensures b.NotAnObject? ==> FieldErrors(r.error) == map[]
  {
    match b
    case NotAnObject(v) => Err([Issue("", "Expected object, received " + TypeName(v))])
    case Fields(email, password, name) =>
      var e := Email(email, isEmail);
      var p := BoundedString("password", password, 8, PasswordTooShort, 128, PasswordTooLong);
      var n := BoundedString("name", name, 1, NameRequired, 100, TooLongMessage(100));
      if e.Valid? && p.Valid? && n.Valid? then Ok(Signup(e.value, p.value, n.value))
      else Err(e.Issues() + p.Issues() + n.Issues())
  }

  /** How the route sorts an auth error by its lowercased message. */
  function Classify(lowered: string): (r: Reply)
    ensures r.payload.ErrorPayload? && r.payload.details.None?
    ensures r.status == 400 <==> Contains(lowered, "password")
    ensures r.status == 409 <==> !Contains(lowered, "password")
                                 && (Contains(lowered, "already") || Contains(lowered, "registered") || Contains(lowered, "exists"))
    ensures r.status in {400, 409, 503}
    ensures r.status == 400 ==> r.payload.code == WeakPassword
    ensures r.status == 409 ==> r.payload.code == EmailAlreadyExists
    ensures r.status == 503 ==> r.payload.code == ServiceUnavailable
  {
    if Contains(lowered, "password") then Reply(400, ErrorPayload(WeakPassword, CheckPasswordPolicy, None))
    else if Contains(lowered, "already") || Contains(lowered, "registered") || Contains(lowered, "exists") then
      Reply(409, ErrorPayload(EmailAlreadyExists, EmailTaken, None))
    else Reply(503, ErrorPayload(ServiceUnavailable, TryAgainLater, None))
  }

  /** The message the route classifies: the error's own, or a default when missing or "", lowercased. */
  function LoweredMessage(e: AuthError, lower: string -> string): string {
    lower(if e.message.Some? && e.message.value != "" then e.message.value else DefaultAuthMessage)
  }

  /**
   * `POST` of the signup route. `signUp` is the auth service's answer for
   * the validated fields; it is consulted only when the body is valid.
   */
  function Post(b: Body, isEmail: string -> bool, lower: string -> string, signUp: SignUpOutcome): (r: Reply)
    ensures r.status in {201, 400, 409, 503}
    ensures r.status == 201 <==> r.payload.SignupSuccess?
    ensures r.status == 201 <==> && !b.Unparsable? && SignupAccepted(b, isEmail)
                                 && signUp.Replied? && signUp.error.None? && signUp.user.Some?
                                 && Truthy(signUp.user.value.id)
    ensures r.payload.SignupSuccess? ==>
              && r.payload.userId == signUp.user.value.id.value && !r.payload.onboarded
              && (r.payload.needsEmailConfirmation <==> signUp.user.value.identities.None? || signUp.user.value.identities == Some(0))
    ensures b.Unparsable? ==> r == Reply(400, ErrorPayload(ValidationError, BadBody, None))
    ensures !b.Unparsable? && !SignupAccepted(b, isEmail) ==>
              r == Reply(400, ErrorPayload(ValidationError, InvalidInput, Some(FieldErrors(SignupSchema(b, isEmail).error))))
    ensures signUp.Threw? ==> r.status != 201 && (b.Unparsable? || !SignupAccepted(b, isEmail) || r.status == 503)
    ensures !b.Unparsable? && SignupAccepted(b, isEmail) && signUp.Threw? ==>
              r == Reply(503, ErrorPayload(ServiceUnavailable, TryAgainLater, None))
    ensures !b.Unparsable? && SignupAccepted(b, isEmail) && signUp.Replied? && signUp.error.Some? ==>
              r == Classify(LoweredMessage(signUp.error.value, lower))
    ensures !b.Unparsable? && SignupAccepted(b, isEmail) && signUp.Replied? && signUp.error.None?
            && !(signUp.user.Some? && Truthy(signUp.user.value.id)) ==>
              r == Reply(503, ErrorPayload(ServiceUnavailable, NoSignupResult, None))
  {
    if b.Unparsable? then Reply(400, ErrorPayload(ValidationError, BadBody, None))
    else
      match SignupSchema(b, isEmail)
      case Err(issues) => Reply(400, ErrorPayload(ValidationError, InvalidInput, Some(FieldErrors(issues))))
      case Ok(_) =>
        match signUp
        case Threw => Reply(503, ErrorPayload(ServiceUnavailable, TryAgainLater, None))
        case Replied(error, user) =>
          if error.Some? then Classify(LoweredMessage(error.value, lower))
          else if user.None? || !Truthy(user.value.id) then Reply(503, ErrorPayload(ServiceUnavailable, NoSignupResult, None))
          else Reply(201, SignupSuccess(user.value.id.value, false, user.value.identities.None? || user.value.identities == Some(0)))
  }

  /** A present and non-empty text. */
  predicate Truthy(v: Option<string>) {
    v.Some? && v.value != ""
  }

  /** An error containing both "password" and "exists" is a password problem: the first test wins. */
  lemma PasswordTakesPrecedence(lowered: string)
    requires Contains(lowered, "password") && Contains(lowered, "exists")
    ensures Classify(lowered).payload.code == WeakPassword && Classify(lowered).status == 400
  {
  }

  /**
   * An auth error without a message falls back to the default text, which
   * holds none of the keywords, so the reply is 503 (given that lowercasing
   * leaves the Korean default unchanged).
   */
  lemma MissingMessageIsServiceUnavailable(e: AuthError, lower: string -> string)
    requires e.message.None? || e.message == Some("")
    requires lower(DefaultAuthMessage) == DefaultAuthMessage
    ensures Classify(LoweredMessage(e, lower)) == Reply(503, ErrorPayload(ServiceUnavailable, TryAgainLater, None))
  {
    NotContainsWithoutFirst(DefaultAuthMessage, "password");
    NotContainsWithoutFirst(DefaultAuthMessage, "already");
    NotContainsWithoutFirst(DefaultAuthMessage, "registered");
    NotContainsWithoutFirst(DefaultAuthMessage, "exists");
  }

  /** The validation failure names every rejected field, and only those, in its details. */
  lemma ValidationDetailsNameFields(b: Body, isEmail: string -> bool)
    requires b.Fields? && !SignupAccepted(b, isEmail)
    ensures var d := Post(b, isEmail, s => s, Threw).payload.details.value;
            && ("email" in d <==> !(b.email.Str? && isEmail(b.email.s)))
            && ("password" in d <==> !(b.password.Str? && 8 <= Utf16Length(b.password.s) <= 128))
            && ("name" in d <==> !(b.name.Str? && 1 <= Utf16Length(b.name.s) <= 100))
  {
    var e := Email(b.email, isEmail);
    var p := BoundedString("password", b.password, 8, PasswordTooShort, 128, PasswordTooLong);
    var n := BoundedString("name", b.name, 1, NameRequired, 100, TooLongMessage(100));
    OnlyOnNot(e.Issues(), "email", "password");
    OnlyOnNot(e.Issues(), "email", "name");
    OnlyOnNot(p.Issues(), "password", "email");
    OnlyOnNot(p.Issues(), "password", "name");
    OnlyOnNot(n.Issues(), "name", "email");
    OnlyOnNot(n.Issues(), "name", "password");
    NonEmptyOnlyOn(e.Issues(), "email");
    NonEmptyOnlyOn(p.Issues(), "password");
    NonEmptyOnlyOn(n.Issues(), "name");
    HasIssueOnAppend(e.Issues(), p.Issues(), "email");
    HasIssueOnAppend(e.Issues(), p.Issues(), "password");
    HasIssueOnAppend(e.Issues(), p.Issues(), "name");
    HasIssueOnAppend(e.Issues() + p.Issues(), n.Issues(), "email");
    HasIssueOnAppend(e.Issues() + p.Issues(), n.Issues(), "password");
    HasIssueOnAppend(e.Issues() + p.Issues(), n.Issues(), "name");
  }

  lemma OnlyOnNot(issues: seq<Issue>, path: string, other: string)
    requires OnlyOn(issues, path) && other != path
    ensures !HasIssueOn(issues, other)
  {
  }

  lemma NonEmptyOnlyOn(issues: seq<Issue>, path: string)
    requires OnlyOn(issues, path)
    ensures issues != [] <==> HasIssueOn(issues, path)
  {
    if issues != [] { assert issues[0].path == path; }
  }
}
