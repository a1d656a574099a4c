/**
 * The authorization guards of the server actions: `requireAuth`, the two
 * role guards and `requireCourseOwnership`. Each runs a fixed order of
 * checks over what the identity service and the store return and fails
 * with an `HttpError` carrying an HTTP status code.
 */
module Guards {
  import opened Wrappers
  import opened Db

  const AuthUnavailable := "인증 정보를 확인할 수 없습니다."
  const LoginRequired := "로그인이 필요합니다."
  const ProfileUnavailable := "프로필 정보를 불러오지 못했습니다."
  const AccessDenied := "접근 권한이 없습니다."
  const LearnerOnly := "학생 전용 페이지입니다."
  const CourseUnavailable := "코스 정보를 불러오지 못했습니다."
  const CourseNotFound := "코스를 찾을 수 없습니다."
  const CourseNotOwned := "코스에 대한 권한이 없습니다."

  /** `HttpError`: the status code and message it was constructed with. */
  datatype HttpError = HttpError(code: int, message: string)

  /** What `auth.getUser()` answers: an error flag and the user, each independently. */
  datatype AuthResponse = AuthResponse(failed: bool, user: Option<User>)

  /** What one request can see: the identity answer and the two tables the guards query. */
  datatype Snapshot = Snapshot(auth: AuthResponse, profiles: Table<ProfileRow>, courses: Table<CourseRow>)

  datatype Granted = Granted(user: User, profile: ProfileRow)

  datatype Owned = Owned(user: User, profile: ProfileRow, course: CourseRow)

  /** `requireAuth`: a lookup error wins over a missing user. */
  function RequireAuth(auth: AuthResponse): (r: Result<User, HttpError>)
    ensures r.Ok? <==> !auth.failed && auth.user.Some?
    ensures r.Ok? ==> r.value == auth.user.value
    ensures auth.failed ==> r == Err(HttpError(500, AuthUnavailable))
    ensures !auth.failed && auth.user.None? ==> r == Err(HttpError(401, LoginRequired))
  {
    if auth.failed then Err(HttpError(500, AuthUnavailable))
    else if auth.user.None? then Err(HttpError(401, LoginRequired))
    else Ok(auth.user.value)
  }

  /** The profile lookup `from('profiles').eq('id', user.id).maybeSingle()`. */
  function ProfileOf(s: Snapshot, u: User): Lookup<ProfileRow> {
    MaybeSingle(s.profiles, ProfileId, u.id)
  }

  /**
   * The shared body of `requireInstructor` and `requireLearner`: after
   * authentication, a failed profile lookup is a 500, a missing profile and
   * a profile without the wanted role are 403s. `onboarded` is not read.
   */
  function RequireRole(s: Snapshot, role: Role, wrongRole: string): (r: Result<Granted, HttpError>)
    ensures RequireAuth(s.auth).Err? ==> r == Err(RequireAuth(s.auth).error)
    ensures r.Ok? <==> && RequireAuth(s.auth).Ok?
                       && ProfileOf(s, RequireAuth(s.auth).value).Found?
                       && ProfileOf(s, RequireAuth(s.auth).value).row.role == Some(role)
    ensures r.Ok? ==> && r.value.user == s.auth.user.value
                      && r.value.profile.id == r.value.user.id
                      && r.value.profile.role == Some(role)
                      && r.value.profile in s.profiles.rows
    ensures RequireAuth(s.auth).Ok? ==>
              var p := ProfileOf(s, RequireAuth(s.auth).value);
              && (p.LookupFailed? ==> r == Err(HttpError(500, ProfileUnavailable)))
              && (p.NoRow? ==> r == Err(HttpError(403, AccessDenied)))
              && (p.Found? && p.row.role != Some(role) ==> r == Err(HttpError(403, wrongRole)))
  {
    match RequireAuth(s.auth)
    case Err(e) => Err(e)
    case Ok(u) =>
      match ProfileOf(s, u)
      case LookupFailed => Err(HttpError(500, ProfileUnavailable))
      case NoRow => Err(HttpError(403, AccessDenied))
      case Found(p) => if p.role != Some(role) then Err(HttpError(403, wrongRole)) else Ok(Granted(u, p))
  }

  /** `requireInstructor`. */
  function RequireInstructor(s: Snapshot): (r: Result<Granted, HttpError>)
    ensures r.Ok? <==> && RequireAuth(s.auth).Ok?
                       && ProfileOf(s, RequireAuth(s.auth).value).Found?
                       && ProfileOf(s, RequireAuth(s.auth).value).row.role == Some(Instructor)
    ensures r.Ok? ==> r.value.user == s.auth.user.value && r.value.profile.id == r.value.user.id
    ensures RequireAuth(s.auth).Ok? && ProfileOf(s, RequireAuth(s.auth).value).Found?
            && ProfileOf(s, RequireAuth(s.auth).value).row.role != Some(Instructor)
            ==> r == Err(HttpError(403, AccessDenied))
    ensures r.Err? ==> r.error.code in {500, 401, 403}
  {
    RequireRole(s, Instructor, AccessDenied)
  }

  /** `requireLearner`: the same checks for `learner`, with its own wrong-role message. */
  function RequireLearner(s: Snapshot): (r: Result<Granted, HttpError>)
    ensures r.Ok? <==> && RequireAuth(s.auth).Ok?
                       && ProfileOf(s, RequireAuth(s.auth).value).Found?
                       && ProfileOf(s, RequireAuth(s.auth).value).row.role == Some(Learner)
    ensures r.Ok? ==> r.value.user == s.auth.user.value && r.value.profile.id == r.value.user.id
    ensures RequireAuth(s.auth).Ok? && ProfileOf(s, RequireAuth(s.auth).value).Found?
            && ProfileOf(s, RequireAuth(s.auth).value).row.role != Some(Learner)
            ==> r == Err(HttpError(403, LearnerOnly))
    ensures r.Err? ==> r.error.code in {500, 401, 403}
  {
    RequireRole(s, Learner, LearnerOnly)
  }

  /** The course lookup `from('courses').eq('id', courseId).maybeSingle()`. */
  function CourseOf(s: Snapshot, courseId: string): Lookup<CourseRow> {
    MaybeSingle(s.courses, CourseId, courseId)
  }

  /**
   * `requireCourseOwnership`: the instructor guard first (so its failure
   * is reported before the course table is consulted), then existence
   * (500 for a failed lookup, 404 for none), then ownership (403).
   */
  function RequireCourseOwnership(s: Snapshot, courseId: string): (r: Result<Owned, HttpError>)
    ensures RequireInstructor(s).Err? ==> r == Err(RequireInstructor(s).error)
    ensures r.Ok? <==> && RequireInstructor(s).Ok?
                       && CourseOf(s, courseId).Found?
                       && CourseOf(s, courseId).row.instructorId == RequireInstructor(s).value.user.id
    ensures r.Ok? ==> && r.value.course.id == courseId
                      && r.value.course.instructorId == r.value.user.id
                      && r.value.course in s.courses.rows
                      && Granted(r.value.user, r.value.profile) == RequireInstructor(s).value
    ensures RequireInstructor(s).Ok? ==>
              var c := CourseOf(s, courseId);
              && (c.LookupFailed? ==> r == Err(HttpError(500, CourseUnavailable)))
              && (c.NoRow? ==> r == Err(HttpError(404, CourseNotFound)))
              && (c.Found? && c.row.instructorId != RequireInstructor(s).value.user.id
                  ==> r == Err(HttpError(403, CourseNotOwned)))
  {
    match RequireInstructor(s)
    case Err(e) => Err(e)
    case Ok(g) =>
      match CourseOf(s, courseId)
      case LookupFailed => Err(HttpError(500, CourseUnavailable))
      case NoRow => Err(HttpError(404, CourseNotFound))
      case Found(c) =>
        if c.instructorId != g.user.id then Err(HttpError(403, CourseNotOwned))
        else Ok(Owned(g.user, g.profile, c))
  }

  /** No request passes both role guards. */
  lemma NoOneIsBoth(s: Snapshot)
    ensures !(RequireInstructor(s).Ok? && RequireLearner(s).Ok?)
  {
  }

  /** A signed-in user whose profile has no role yet is refused with 403 by both role guards. */
  lemma NullRoleRefusedByBoth(s: Snapshot)
    requires RequireAuth(s.auth).Ok?
    requires ProfileOf(s, RequireAuth(s.auth).value).Found? && ProfileOf(s, RequireAuth(s.auth).value).row.role.None?
    ensures RequireInstructor(s) == Err(HttpError(403, AccessDenied))
    ensures RequireLearner(s) == Err(HttpError(403, LearnerOnly))
  {
  }

  /**
   * On a reachable profiles table in which `u` has exactly one row, whose
   * role is instructor, the instructor guard lets `u` through whatever the
   * row's `onboarded` flag says.
   */
  lemma InstructorWithUniqueProfileGranted(s: Snapshot, u: User, p: ProfileRow)
    requires !s.auth.failed && s.auth.user == Some(u) && !s.profiles.unreachable
    requires p in s.profiles.rows && p.id == u.id && p.role == Some(Instructor)
    requires forall k :: 0 <= k < |s.profiles.rows| && s.profiles.rows[k] != p ==> s.profiles.rows[k].id != u.id
    requires forall k, l :: 0 <= k < l < |s.profiles.rows| && s.profiles.rows[k] == p ==> s.profiles.rows[l] != p
    ensures RequireInstructor(s) == Ok(Granted(u, p))
  {
    MatchingSingle(s.profiles.rows, ProfileId, u.id, p);
  }

  /**
   * On a reachable courses table in which `courseId` names exactly one
   * row, the instructor who owns that row is granted it.
   */
  lemma OwnerOfUniqueCourseGranted(s: Snapshot, courseId: string, c: CourseRow)
    requires RequireInstructor(s).Ok? && !s.courses.unreachable
    requires c in s.courses.rows && c.id == courseId && c.instructorId == RequireInstructor(s).value.user.id
    requires forall k :: 0 <= k < |s.courses.rows| && s.courses.rows[k] != c ==> s.courses.rows[k].id != courseId
    requires forall k, l :: 0 <= k < l < |s.courses.rows| && s.courses.rows[k] == c ==> s.courses.rows[l] != c
    ensures RequireCourseOwnership(s, courseId).Ok?
    ensures RequireCourseOwnership(s, courseId).value.course == c
  {
    MatchingSingle(s.courses.rows, CourseId, courseId, c);
  }
}
