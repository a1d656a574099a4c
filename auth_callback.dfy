/**
 * The email-confirmation callback: it reads `code`, `error` and
 * `error_description` from the query and redirects to `/signin` (with an
 * error and a message), to `/onboarding` or to a dashboard. Query values
 * are kept as the decoded text the receiving page reads back.
 */
module AuthCallback {
  import opened Wrappers
  import opened Strings
  import opened Db

  const VerificationFailed := "이메일 확인에 실패했습니다."
  const VerificationLinkExpired := "이메일 확인 링크가 만료되었습니다. 다시 회원가입해주세요."
  const AuthFailed := "인증 처리 중 오류가 발생했습니다."
  const AuthCodeExpired := "인증 코드가 만료되었습니다. 다시 시도해주세요."

  /** The query parameters the callback reads; `None` when absent. */
  datatype CallbackQuery = CallbackQuery(code: Option<string>, error: Option<string>, errorDescription: Option<string>)

  /** An auth-service error object, whose `message` may be missing. */
  datatype AuthError = AuthError(message: Option<string>)

  /**
   * What the auth service and the store answer once a code is exchanged:
   * the exchange error if any, the signed-in user if any, and the profile
   * table as the lookup sees it.
   */
  datatype Services = Services(exchangeError: Option<AuthError>, user: Option<User>, profiles: Table<ProfileRow>)

  /** A redirect to `path` on the request's origin, with its query parameters in order. */
  datatype Redirect = Redirect(origin: string, path: string, query: seq<(string, string)>)

  /** A query value is truthy when present and not "". */
  predicate Truthy(v: Option<string>) {
    v.Some? && v.value != ""
  }

  /** `optional?.includes(needle)`, false when the text is absent. */
  predicate MentionsOpt(text: Option<string>, needle: string) {
    text.Some? && Contains(text.value, needle)
  }

  /** The message for an `error` parameter from the auth service. */
  function VerificationMessage(error: string, description: Option<string>): (m: string)
    ensures m == VerificationLinkExpired <==> error == "access_denied" && MentionsOpt(description, "expired")
    ensures m in {VerificationFailed, VerificationLinkExpired}
  {
    if error == "access_denied" && MentionsOpt(description, "expired") then VerificationLinkExpired else VerificationFailed
  }

  /** The message for a failed code exchange. */
  function ExchangeMessage(e: AuthError): (m: string)
    ensures m == AuthCodeExpired <==> MentionsOpt(e.message, "expired")
    ensures m in {AuthFailed, AuthCodeExpired}
  {
    if MentionsOpt(e.message, "expired") then AuthCodeExpired else AuthFailed
  }

  /** Where a signed-in user goes after a successful exchange: a dashboard when onboarded, `/onboarding` otherwise. */
  function Landing(user: Option<User>, profiles: Table<ProfileRow>): (path: string)
    ensures path in {"/instructor/dashboard", "/learner/dashboard", "/onboarding"}
  {
    if user.None? then "/onboarding"
    else
      match MaybeSingle(profiles, ProfileId, user.value.id)
      case Found(p) =>
        if p.onboarded then (if p.role == Some(Instructor) then "/instructor/dashboard" else "/learner/dashboard")
        else "/onboarding"
      case _ => "/onboarding"
  }

  /** `GET` of the callback route. */
  function Callback(origin: string, q: CallbackQuery, s: Services): (r: Redirect)
    ensures r.origin == origin
    ensures r.path in {"/signin", "/onboarding", "/instructor/dashboard", "/learner/dashboard"}
    ensures r.path != "/signin" <==> !Truthy(q.error) && Truthy(q.code) && s.exchangeError.None?
  {
    if Truthy(q.error) then
      Redirect(origin, "/signin", [("error", "email_verification_failed"), ("message", VerificationMessage(q.error.value, q.errorDescription))])
    else if Truthy(q.code) then
      match s.exchangeError
      case Some(e) => Redirect(origin, "/signin", [("error", "auth_failed"), ("message", ExchangeMessage(e))])
      case None => Redirect(origin, Landing(s.user, s.profiles), [])
    else Redirect(origin, "/signin", [])
  }

  /** A non-empty `error` is handled first: it always leads to `/signin` with `email_verification_failed`, whatever the code. */
  lemma ErrorWinsOverCode(origin: string, q: CallbackQuery, s: Services)
    requires Truthy(q.error)
    ensures Callback(origin, q, s).path == "/signin"
    ensures Callback(origin, q, s).query[0] == ("error", "email_verification_failed")
    ensures Callback(origin, q, s) == Callback(origin, q.(code := None), s)
  {
  }

  /** A failed exchange leads to `/signin` with `auth_failed`, and the "expired" message exactly when the error text says so. */
  lemma FailedExchange(origin: string, q: CallbackQuery, s: Services)
    requires !Truthy(q.error) && Truthy(q.code) && s.exchangeError.Some?
    ensures Callback(origin, q, s).path == "/signin"
    ensures Callback(origin, q, s).query == [("error", "auth_failed"), ("message", ExchangeMessage(s.exchangeError.value))]
  {
  }

  /**
   * After a successful exchange, an onboarded instructor lands on the
   * instructor dashboard and every other onboarded profile (a learner, or
   * a profile with no role) on the learner dashboard; a missing user, a
   * missing profile or one not onboarded lands on `/onboarding`.
   */
  lemma LandingAfterExchange(origin: string, q: CallbackQuery, s: Services)
    requires !Truthy(q.error) && Truthy(q.code) && s.exchangeError.None?
    ensures var p := Callback(origin, q, s).path;
            var found := s.user.Some? && MaybeSingle(s.profiles, ProfileId, s.user.value.id).Found?;
            var row := if found then Some(MaybeSingle(s.profiles, ProfileId, s.user.value.id).row) else None;
            && (p == "/onboarding" <==> row.None? || !row.value.onboarded)
            && (p == "/instructor/dashboard" <==> row.Some? && row.value.onboarded && row.value.role == Some(Instructor))
            && (p == "/learner/dashboard" <==> row.Some? && row.value.onboarded && row.value.role != Some(Instructor))
  {
  }

  /** Without an error and without a code (an empty string counts as absent) the callback goes to a bare `/signin`. */
  lemma NothingToDo(origin: string, q: CallbackQuery, s: Services)
    requires !Truthy(q.error) && !Truthy(q.code)
    ensures Callback(origin, q, s) == Redirect(origin, "/signin", [])
  {
  }
}
