/**
 * The request middleware: which requests pass through and which are sent
 * elsewhere (signed-out users to `/signin`, users without a finished
 * profile to `/onboarding`, users on the other role's area to their own
 * dashboard), and the redirect response that keeps every cookie the
 * original response already carried.
 */
module Middleware {
  import opened Wrappers
  import opened Strings
  import opened Db

  const PublicPaths: seq<string> := ["/", "/signin", "/signup", "/onboarding"]
  const LearnerPrefix := "/learner"
  const InstructorPrefix := "/instructor"
  const SigninPath := "/signin"
  const OnboardingPath := "/onboarding"
  const InstructorDashboard := "/instructor/dashboard"
  const LearnerDashboard := "/learner/dashboard"

  datatype Outcome = PassThrough | RedirectTo(path: string)

  /** One entry of `PUBLIC_PATHS` admits `pathname`: `/` only itself, the others themselves and anything below them. */
  predicate Admits(publicPath: string, pathname: string) {
    if publicPath == "/" then pathname == "/"
    else pathname == publicPath || StartsWith(pathname, publicPath + "/")
  }

  /** `paths.some(p => Admits(p, pathname))`. */
  predicate AnyAdmits(paths: seq<string>, pathname: string)
    decreases |paths|
  {
    |paths| > 0 && (Admits(paths[0], pathname) || AnyAdmits(paths[1..], pathname))
  }

  /** `isPublicPath`. */
  predicate IsPublicPath(pathname: string) {
    AnyAdmits(PublicPaths, pathname)
  }

  /** The text before the first `/` of `s`, or all of `s`. */
  function FirstSegment(s: string): (r: string)
    ensures '/' !in r && StartsWith(s, r)
  {
    match IndexOf(s, "/")
    case None =>
      forall k | 0 <= k < |s| ensures s[k] != '/' {
        assert !IsAt(s, "/", k);
        assert s[k..k + 1] == [s[k]];
      }
      s
    case Some(i) =>
      forall k | 0 <= k < i ensures s[..i][k] != '/' {
        assert !IsAt(s, "/", k);
        assert s[k..k + 1] == [s[k]];
      }
      s[..i]
  }

  /** For a word without `/`, the first segment of `t` is that word exactly when `t` is the word or continues with `/`. */
  lemma FirstSegmentIs(t: string, w: string)
    requires '/' !in w
    ensures FirstSegment(t) == w <==> t == w || StartsWith(t, w + "/")
  {
    if FirstSegment(t) == w {
      match IndexOf(t, "/")
      case None =>
      case Some(i) =>
        assert t[..i + 1] == w + "/";
    }
    if t == w {
      NoSeparatorIn(t, "/");
    }
    if StartsWith(t, w + "/") {
      assert t[..|w|] == w;
      FirstSeparatorAfter(w, t[|w| + 1..], "/");
      assert t == w + "/" + t[|w| + 1..];
    }
  }

  /** `isPublicPath` tries the four public paths in turn. */
  lemma PublicPathsInTurn(pathname: string)
    ensures IsPublicPath(pathname) <==> || Admits("/", pathname) || Admits("/signin", pathname)
                                        || Admits("/signup", pathname) || Admits("/onboarding", pathname)
  {
    assert PublicPaths[1..] == ["/signin", "/signup", "/onboarding"];
    assert PublicPaths[1..][1..] == ["/signup", "/onboarding"];
    assert PublicPaths[1..][1..][1..] == ["/onboarding"];
    assert PublicPaths[1..][1..][1..][1..] == [];
  }

  /** A public path other than `/` admits exactly the paths whose first segment is its word. */
  lemma AdmitsBySegment(w: string, pathname: string)
    requires '/' !in w && w != ""
    ensures Admits("/" + w, pathname) <==> StartsWith(pathname, "/") && FirstSegment(pathname[1..]) == w
  {
    if StartsWith(pathname, "/") {
      var t := pathname[1..];
      assert pathname == "/" + t;
      FirstSegmentIs(t, w);
      StartsWithSlash(t, w);
    }
  }

  /**
   * The same set of public paths, stated by path segment: `/` itself, or a
   * path whose first segment is exactly `signin`, `signup` or `onboarding`.
   */
  lemma PublicPathBySegment(pathname: string)
    ensures IsPublicPath(pathname) <==>
            pathname == "/" || (StartsWith(pathname, "/") && FirstSegment(pathname[1..]) in {"signin", "signup", "onboarding"})
  {
    PublicPathsInTurn(pathname);
    AdmitsBySegment("signin", pathname);
    AdmitsBySegment("signup", pathname);
    AdmitsBySegment("onboarding", pathname);
    assert "/signin" == "/" + "signin" && "/signup" == "/" + "signup" && "/onboarding" == "/" + "onboarding";
  }

  lemma StartsWithSlash(t: string, w: string)
    ensures ("/" + t == "/" + w <==> t == w)
    ensures StartsWith("/" + t, "/" + w + "/") <==> StartsWith(t, w + "/")
  {
    if "/" + t == "/" + w { assert t == ("/" + t)[1..]; }
    if StartsWith("/" + t, "/" + w + "/") { assert t[..|w| + 1] == ("/" + t)[1..|w| + 2]; }
    if StartsWith(t, w + "/") { assert ("/" + t)[..|w| + 2] == "/" + t[..|w| + 1]; }
  }

  /** `/signin2` is not public, although it starts with `/signin`; `/signin/reset` is. */
  lemma PublicPathNeedsSegmentBoundary()
    ensures !IsPublicPath("/signin2") && IsPublicPath("/signin/reset")
  {
    PublicPathsInTurn("/signin2");
    assert "/signin2"[..8] != "/signin/" by { assert "/signin2"[7] == '2'; }
    assert "/signin2"[5] == 'i';
    PublicPathsInTurn("/signin/reset");
    assert "/signin/reset"[..8] == "/signin/";
  }

  /** The profile as the middleware sees it: a failed or ambiguous lookup reads as no profile. */
  function ProfileSeen(profiles: Table<ProfileRow>, u: User): Option<ProfileRow> {
    match MaybeSingle(profiles, ProfileId, u.id)
    case Found(p) => Some(p)
    case _ => None
  }

  /** The redirect decision of `middleware` as the source writes it. */
  function Decide(session: Option<User>, profiles: Table<ProfileRow>, pathname: string): (r: Outcome)
    ensures r.RedirectTo? ==> r.path in {SigninPath, OnboardingPath, InstructorDashboard, LearnerDashboard}
    ensures session.None? ==> (r.PassThrough? <==> IsPublicPath(pathname))
    ensures session.None? && !IsPublicPath(pathname) ==> r == RedirectTo(SigninPath)
  {
    if session.None? then
      if IsPublicPath(pathname) then PassThrough else RedirectTo(SigninPath)
    else
      match ProfileSeen(profiles, session.value)
      case None => RedirectTo(OnboardingPath)
      case Some(p) => DecideForProfile(p, pathname)
  }

  /** The checks made once a profile row is found: onboarding first, then the role areas. */
  function DecideForProfile(p: ProfileRow, pathname: string): (r: Outcome)
    ensures !p.onboarded && !StartsWith(pathname, OnboardingPath) ==> r == RedirectTo(OnboardingPath)
  {
    if !p.onboarded && !StartsWith(pathname, OnboardingPath) then RedirectTo(OnboardingPath)
    else if p.role == Some(Instructor) && StartsWith(pathname, LearnerPrefix) then RedirectTo(InstructorDashboard)
    else if p.role == Some(Learner) && StartsWith(pathname, InstructorPrefix) then RedirectTo(LearnerDashboard)
    else PassThrough
  }

  /** A signed-in user without a profile row is sent to `/onboarding` from every path. */
  lemma NoProfileAlwaysOnboarding(u: User, profiles: Table<ProfileRow>, pathname: string)
    requires ProfileSeen(profiles, u).None?
    ensures Decide(Some(u), profiles, pathname) == RedirectTo(OnboardingPath)
  {
  }

  /**
   * A user who has not finished onboarding stays on `/onboarding` and
   * below, and is sent there from everywhere else, whatever the role.
   */
  lemma NotOnboardedConfinedToOnboarding(u: User, profiles: Table<ProfileRow>, pathname: string)
    requires ProfileSeen(profiles, u).Some? && !ProfileSeen(profiles, u).value.onboarded
    ensures Decide(Some(u), profiles, pathname)
            == if StartsWith(pathname, OnboardingPath) then PassThrough else RedirectTo(OnboardingPath)
  {
    if StartsWith(pathname, OnboardingPath) {
      assert pathname[1] == 'o';
      assert !StartsWith(pathname, LearnerPrefix) && !StartsWith(pathname, InstructorPrefix) by {
        assert LearnerPrefix[1] == 'l' && InstructorPrefix[1] == 'i';
      }
    }
  }

  /**
   * An onboarded instructor is turned away from every path starting with
   * `/learner` (no segment boundary: `/learners` too), an onboarded learner
   * from every path starting with `/instructor`; other paths pass.
   */
  lemma RoleAreas(p: ProfileRow, pathname: string)
    requires p.onboarded
    ensures p.role == Some(Instructor) ==>
              DecideForProfile(p, pathname) == if StartsWith(pathname, LearnerPrefix) then RedirectTo(InstructorDashboard) else PassThrough
    ensures p.role == Some(Learner) ==>
              DecideForProfile(p, pathname) == if StartsWith(pathname, InstructorPrefix) then RedirectTo(LearnerDashboard) else PassThrough
    ensures p.role.None? ==> DecideForProfile(p, pathname) == PassThrough
  {
  }

  /** Where a path starts with `/instructor` or `/onboarding` it does not start with `/learner`, and so on. */
  lemma PrefixesDisjoint(pathname: string)
    ensures StartsWith(pathname, LearnerPrefix) ==> !StartsWith(pathname, InstructorPrefix) && !StartsWith(pathname, OnboardingPath)
    ensures StartsWith(pathname, InstructorPrefix) ==> !StartsWith(pathname, OnboardingPath)
  {
    if StartsWith(pathname, LearnerPrefix) { assert pathname[1] == 'l'; }
    if StartsWith(pathname, InstructorPrefix) { assert pathname[1] == 'i'; }
  }

  /**
   * Once a profile row is found, every redirect the middleware issues
   * lands on a path that the middleware then lets through: the dashboards
   * and `/onboarding` are not sent on again.
   */
  lemma RedirectsSettleWithProfile(u: User, profiles: Table<ProfileRow>, pathname: string)
    requires ProfileSeen(profiles, u).Some?
    requires Decide(Some(u), profiles, pathname).RedirectTo?
    ensures Decide(Some(u), profiles, Decide(Some(u), profiles, pathname).path) == PassThrough
  {
    var prof := ProfileSeen(profiles, u).value;
    var t := Decide(Some(u), profiles, pathname).path;
    assert Decide(Some(u), profiles, pathname) == DecideForProfile(prof, pathname);
    assert Decide(Some(u), profiles, t) == DecideForProfile(prof, t);
    ProfileRedirectSettles(prof, pathname);
  }

  /** The profile checks, applied to where they redirect, let the user through. */
  lemma ProfileRedirectSettles(p: ProfileRow, pathname: string)
    requires DecideForProfile(p, pathname).RedirectTo?
    ensures DecideForProfile(p, DecideForProfile(p, pathname).path) == PassThrough
  {
    var t := DecideForProfile(p, pathname).path;
    PrefixesDisjoint(pathname);
    PrefixesDisjoint(t);
    if !p.onboarded && !StartsWith(pathname, OnboardingPath) {
      assert t == OnboardingPath;
      assert StartsWith(OnboardingPath, OnboardingPath);
      assert t[1] == 'o';
    } else if p.role == Some(Instructor) && StartsWith(pathname, LearnerPrefix) {
      assert t == InstructorDashboard;
      assert StartsWith(InstructorDashboard, InstructorPrefix);
      assert p.onboarded;
    } else {
      assert p.role == Some(Learner) && StartsWith(pathname, InstructorPrefix);
      assert t == LearnerDashboard;
      assert StartsWith(LearnerDashboard, LearnerPrefix);
      assert p.onboarded;
    }
  }

  /** Signed-out users are sent to `/signin`, which is public. */
  lemma SignedOutRedirectSettles(profiles: Table<ProfileRow>, pathname: string)
    requires Decide(None, profiles, pathname).RedirectTo?
    ensures Decide(None, profiles, pathname).path == SigninPath
    ensures Decide(None, profiles, Decide(None, profiles, pathname).path) == PassThrough
  {
    PublicPathBySegment(SigninPath);
    assert FirstSegment("signin") == "signin";
  }

  /**
   * As written, a signed-in user with no profile row who is on
   * `/onboarding` is redirected to `/onboarding` again: the redirect never
   * settles.
   */
  lemma NoProfileRedirectLoops(u: User, profiles: Table<ProfileRow>)
    requires ProfileSeen(profiles, u).None?
    ensures Decide(Some(u), profiles, OnboardingPath) == RedirectTo(OnboardingPath)
  {
  }

  /**
   * The decision with the onboarding exemption also applied when no
   * profile row is found, as it is for a profile that is not onboarded.
   */
  function DecideCorrected(session: Option<User>, profiles: Table<ProfileRow>, pathname: string): (r: Outcome)
    ensures r.RedirectTo? ==> r.path in {SigninPath, OnboardingPath, InstructorDashboard, LearnerDashboard}
    ensures r != Decide(session, profiles, pathname) ==>
              && session.Some? && ProfileSeen(profiles, session.value).None?
              && StartsWith(pathname, OnboardingPath) && r == PassThrough
  {
    if session.Some? && ProfileSeen(profiles, session.value).None? then
      if StartsWith(pathname, OnboardingPath) then PassThrough else RedirectTo(OnboardingPath)
    else Decide(session, profiles, pathname)
  }

  /** With the correction, every redirect lands on a path that is let through. */
  lemma CorrectedRedirectsSettle(session: Option<User>, profiles: Table<ProfileRow>, pathname: string)
    requires DecideCorrected(session, profiles, pathname).RedirectTo?
    ensures DecideCorrected(session, profiles, DecideCorrected(session, profiles, pathname).path) == PassThrough
  {
    var t := DecideCorrected(session, profiles, pathname).path;
    if session.None? {
      SignedOutRedirectSettles(profiles, pathname);
    } else if ProfileSeen(profiles, session.value).None? {
      assert StartsWith(OnboardingPath, OnboardingPath);
    } else {
      RedirectsSettleWithProfile(session.value, profiles, pathname);
    }
  }

  // The response side: a cookie jar keyed by cookie name, and the redirect
  // that carries the original response's cookies over.

  /** A cookie with its name, value and attributes (attributes are carried, not interpreted). */
  datatype Cookie = Cookie(name: string, value: string, options: seq<(string, string)>)

  /** The request URL parts a redirect keeps or replaces. */
  datatype Url = Url(origin: string, pathname: string, search: string)

  /** No two cookies in the jar share a name. */
  predicate UniqueNames(cs: seq<Cookie>) {
    forall i, j :: 0 <= i < j < |cs| ==> cs[i].name != cs[j].name
  }

  predicate HasName(cs: seq<Cookie>, n: string) {
    exists k :: 0 <= k < |cs| && cs[k].name == n
  }

  /** The cookie stored under `n`, if any. */
  function Lookup(cs: seq<Cookie>, n: string): (r: Option<Cookie>)
    ensures r.Some? <==> HasName(cs, n)
    ensures r.Some? ==> r.value in cs && r.value.name == n
  {
    if cs == [] then None
    else if cs[0].name == n then Some(cs[0])
    else
      assert forall k :: 1 <= k < |cs| ==> cs[k] == cs[1..][k - 1];
      Lookup(cs[1..], n)
  }

  /** `cookies.set(c)`: the cookie of the same name is replaced where it stands, or `c` is added at the end. */
  function Upsert(cs: seq<Cookie>, c: Cookie): (r: seq<Cookie>)
    ensures |r| == if HasName(cs, c.name) then |cs| else |cs| + 1
  {
    if cs == [] then [c]
    else if cs[0].name == c.name then [c] + cs[1..]
    else
      assert HasName(cs, c.name) <==> HasName(cs[1..], c.name) by {
        if HasName(cs, c.name) {
          var k :| 0 <= k < |cs| && cs[k].name == c.name;
          assert cs[1..][k - 1].name == c.name;
        }
        if HasName(cs[1..], c.name) {
          var k :| 0 <= k < |cs[1..]| && cs[1..][k].name == c.name;
          assert cs[k + 1].name == c.name;
        }
      }
      [cs[0]] + Upsert(cs[1..], c)
  }

  /** After `set(c)`, looking up `c`'s name gives `c`, and every other name gives what it gave before. */
  lemma {:induction false} UpsertLookup(cs: seq<Cookie>, c: Cookie, n: string)
    ensures Lookup(Upsert(cs, c), n) == if n == c.name then Some(c) else Lookup(cs, n)
  {
    if cs != [] && cs[0].name != c.name {
      UpsertLookup(cs[1..], c, n);
      assert Upsert(cs, c)[1..] == Upsert(cs[1..], c);
    }
  }

  /** `set` keeps the names in the jar unique. */
  lemma {:induction false} UpsertKeepsUnique(cs: seq<Cookie>, c: Cookie)
    requires UniqueNames(cs)
    ensures UniqueNames(Upsert(cs, c))
  {
    if cs != [] && cs[0].name != c.name {
      UpsertKeepsUnique(cs[1..], c);
      var r := Upsert(cs, c);
      assert r == [cs[0]] + Upsert(cs[1..], c);
      forall k | 1 <= k < |r| ensures r[k].name != cs[0].name {
        NameInUpsert(cs[1..], c, r[k]);
      }
    } else if cs != [] {
      var r := Upsert(cs, c);
      forall k | 1 <= k < |r| ensures r[k].name != c.name {
        assert r[k] == cs[k];
      }
    }
  }

  lemma {:induction false} NameInUpsert(cs: seq<Cookie>, c: Cookie, x: Cookie)
    requires x in Upsert(cs, c)
    ensures x == c || x in cs
  {
    if cs != [] && cs[0].name != c.name {
      if x != cs[0] { NameInUpsert(cs[1..], c, x); }
    }
  }

  /** `set` of a name not yet in the jar appends it. */
  lemma {:induction false} UpsertFresh(cs: seq<Cookie>, c: Cookie)
    requires !HasName(cs, c.name)
    ensures Upsert(cs, c) == cs + [c]
  {
    if cs != [] {
      assert forall k :: 0 <= k < |cs[1..]| ==> cs[1..][k] == cs[k + 1];
      assert cs[0].name != c.name;
      UpsertFresh(cs[1..], c);
      assert cs == [cs[0]] + cs[1..];
    }
  }

  /** A list of `set` calls in order. */
  function UpsertAll(cs: seq<Cookie>, list: seq<Cookie>): seq<Cookie>
    decreases |list|
  {
    if list == [] then cs else UpsertAll(Upsert(cs, list[0]), list[1..])
  }

  /** After a run of `set` calls, a name holds the last cookie set under it, or what it held before. */
  lemma {:induction false} UpsertAllLastWins(cs: seq<Cookie>, list: seq<Cookie>, n: string)
    ensures Lookup(UpsertAll(cs, list), n) == if HasName(list, n) then Some(list[LastIndexOf(list, n)]) else Lookup(cs, n)
    decreases |list|
  {
    if list != [] {
      UpsertAllLastWins(Upsert(cs, list[0]), list[1..], n);
      UpsertLookup(cs, list[0], n);
      var tail := list[1..];
      if HasName(tail, n) {
        var k :| 0 <= k < |tail| && tail[k].name == n;
        assert list[k + 1].name == n;
        LastIndexOfTail(list, n);
      } else if HasName(list, n) {
        var k :| 0 <= k < |list| && list[k].name == n;
        if k > 0 { assert tail[k - 1].name == n; }
        LastIndexOfHead(list, n);
      }
    }
  }

  /** The index of the last cookie named `n`. */
  function LastIndexOf(list: seq<Cookie>, n: string): (k: nat)
    requires HasName(list, n)
    ensures k < |list| && list[k].name == n
    ensures forall j :: k < j < |list| ==> list[j].name != n
  {
    if list[|list| - 1].name == n then |list| - 1
    else
      var front := list[..|list| - 1];
      assert HasName(front, n) by {
        var k :| 0 <= k < |list| && list[k].name == n;
        assert front[k].name == n;
      }
      LastIndexOf(front, n)
  }

  lemma LastIndexOfTail(list: seq<Cookie>, n: string)
    requires |list| > 0 && HasName(list[1..], n)
    ensures HasName(list, n) && list[LastIndexOf(list, n)] == list[1..][LastIndexOf(list[1..], n)]
  {
    var k := LastIndexOf(list[1..], n);
    assert list[k + 1].name == n;
    assert forall m :: 0 <= m < |list[1..]| ==> list[1..][m] == list[m + 1];
  }

  lemma LastIndexOfHead(list: seq<Cookie>, n: string)
    requires |list| > 0 && HasName(list, n) && !HasName(list[1..], n)
    ensures LastIndexOf(list, n) == 0
  {
    assert forall m :: 0 <= m < |list[1..]| ==> list[1..][m] == list[m + 1];
  }

  /** `NextResponse`'s cookie jar. */
  class CookieJar {
    var entries: seq<Cookie>

    ghost predicate Valid()
      reads this
    {
      UniqueNames(entries)
    }

    constructor()
      ensures entries == [] && Valid()
    {
      entries := [];
    }

    /** `getAll()`: the cookies in the order they were first set. */
    function GetAll(): seq<Cookie>
      reads this
    {
      entries
    }

    /** `set(cookie)`. */
    method Set(c: Cookie)
      requires Valid()
      modifies this
      ensures Valid() && entries == Upsert(old(entries), c)
    {
      UpsertKeepsUnique(entries, c);
      entries := Upsert(entries, c);
    }
  }

  /** The `setAll` callback handed to the auth client: each cookie is `set` on the response in order. */
  method SetAll(jar: CookieJar, cookies: seq<Cookie>)
    requires jar.Valid()
    modifies jar
    ensures jar.Valid() && jar.entries == UpsertAll(old(jar.entries), cookies)
  {
    for i := 0 to |cookies|
      invariant jar.Valid()
      invariant UpsertAll(jar.entries, cookies[i..]) == UpsertAll(old(jar.entries), cookies)
    {
      assert cookies[i..][1..] == cookies[i + 1..];
      jar.Set(cookies[i]);
    }
  }

  /** A middleware response: `NextResponse.next()` or a redirect. */
  class Response {
    var status: int
    var location: Option<Url>
    const cookies: CookieJar

    /** `NextResponse.next()`. */
    constructor Next()
      ensures status == 200 && location.None?
      ensures fresh(cookies) && cookies.entries == [] && cookies.Valid()
    {
      status := 200;
      location := None;
      cookies := new CookieJar();
    }

    /** `NextResponse.redirect(url, { status })`. */
    constructor Redirect(url: Url, code: int)
      ensures status == code && location == Some(url)
      ensures fresh(cookies) && cookies.entries == [] && cookies.Valid()
    {
      status := code;
      location := Some(url);
      cookies := new CookieJar();
    }
  }

  /**
   * `redirectWithCookies`: a 307 to the request URL with its path replaced
   * and its query cleared, carrying every cookie of the original response.
   */
  method RedirectWithCookies(requestUrl: Url, original: Response, target: string) returns (r: Response)
    requires original.cookies.Valid()
    ensures fresh(r) && fresh(r.cookies)
    ensures r.status == 307 && r.location == Some(Url(requestUrl.origin, target, ""))
    ensures r.cookies.Valid() && r.cookies.entries == original.cookies.entries
  {
    var url := requestUrl.(pathname := target, search := "");
    r := new Response.Redirect(url, 307);
    var all := original.cookies.GetAll();
    for i := 0 to |all|
      invariant r.status == 307 && r.location == Some(url)
      invariant r.cookies.Valid() && r.cookies.entries == all[..i]
    {
      assert forall k :: 0 <= k < i ==> all[..i][k].name != all[i].name;
      UpsertFresh(all[..i], all[i]);
      assert all[..i + 1] == all[..i] + [all[i]];
      r.cookies.Set(all[i]);
    }
    assert all[..|all|] == all;
  }

  /**
   * The tail of `middleware`: the response starts as `next()`, receives the
   * cookies the auth client refreshed while reading the session, and is
   * either returned or turned into a redirect that keeps those cookies.
   */
  method Respond(requestUrl: Url, refreshed: seq<Cookie>, outcome: Outcome) returns (r: Response)
    ensures fresh(r) && fresh(r.cookies)
    ensures r.cookies.Valid() && r.cookies.entries == UpsertAll([], refreshed)
    ensures outcome.PassThrough? ==> r.status == 200 && r.location.None?
    ensures outcome.RedirectTo? ==> r.status == 307 && r.location == Some(Url(requestUrl.origin, outcome.path, ""))
  {
    var response := new Response.Next();
    SetAll(response.cookies, refreshed);
    match outcome
    case PassThrough =>
      r := response;
    case RedirectTo(target) =>
      r := RedirectWithCookies(requestUrl, response, target);
  }

  /** `middleware` as written: the response follows `Decide`. */
  method HandleRequest(requestUrl: Url, session: Option<User>, profiles: Table<ProfileRow>, refreshed: seq<Cookie>)
    returns (r: Response)
    ensures fresh(r) && fresh(r.cookies)
    ensures r.cookies.Valid() && r.cookies.entries == UpsertAll([], refreshed)
    ensures Decide(session, profiles, requestUrl.pathname).PassThrough? ==> r.status == 200 && r.location.None?
    ensures Decide(session, profiles, requestUrl.pathname).RedirectTo? ==>
              && r.status == 307
              && r.location == Some(Url(requestUrl.origin, Decide(session, profiles, requestUrl.pathname).path, ""))
  {
    r := Respond(requestUrl, refreshed, Decide(session, profiles, requestUrl.pathname));
  }

  /** `middleware` with the onboarding exemption of `DecideCorrected`. */
  method HandleRequestCorrected(requestUrl: Url, session: Option<User>, profiles: Table<ProfileRow>, refreshed: seq<Cookie>)
    returns (r: Response)
    ensures fresh(r) && fresh(r.cookies)
    ensures r.cookies.Valid() && r.cookies.entries == UpsertAll([], refreshed)
    ensures DecideCorrected(session, profiles, requestUrl.pathname).PassThrough? ==> r.status == 200 && r.location.None?
    ensures DecideCorrected(session, profiles, requestUrl.pathname).RedirectTo? ==>
              && r.status == 307
              && r.location == Some(Url(requestUrl.origin, DecideCorrected(session, profiles, requestUrl.pathname).path, ""))
  {
    r := Respond(requestUrl, refreshed, DecideCorrected(session, profiles, requestUrl.pathname));
  }
}
