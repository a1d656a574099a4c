/**
 * Cookie handling of the browser client: reading `document.cookie`
 * (the `cookie-pair *( ";" SP cookie-pair )` form of RFC 6265 section
 * 4.2.1), writing one Set-Cookie string per cookie (RFC 6265 sections
 * 4.1.1 and 4.1.2, with SameSite from the rfc6265bis draft), and the
 * lazily created client. `encodeURIComponent`, `decodeURIComponent` and
 * `toUTCString` are taken as given; a failing decode is `None`.
 */
module BrowserClient {
  import opened Wrappers
  import opened Strings

  /** The `sameSite` option: absent, a boolean, or a string. */
  datatype SameSite = SameSiteAbsent | SameSiteFlag(on: bool) | SameSiteText(text: string)

  /** A JavaScript number, as `Math.floor` and `String` treat it. */
  datatype Number = Finite(r: real) | NotANumber | Infinite(negative: bool)

  /** The `expires` option: absent, or a `Date` whose time is `None` when it is an invalid date. */
  datatype Expires = NoExpiry | ExpiresAt(time: Option<int>)

  datatype CookieOptions = CookieOptions(
    path: Option<string>,
    domain: Option<string>,
    maxAge: Option<Number>,
    expires: Expires,
    sameSite: SameSite,
    secure: bool)

  /** A cookie to write; `options` is `None` for `undefined`. */
  datatype BrowserCookie = BrowserCookie(name: string, value: string, options: Option<CookieOptions>)

  /** The browser's primitives. */
  datatype Primitives = Primitives(encode: string -> string, decode: string -> Option<string>, utc: int -> string)

  const NoOptions := CookieOptions(None, None, None, NoExpiry, SameSiteAbsent, false)

  /** `formatSameSite`: the attribute value, or `None` for no attribute. */
  function FormatSameSite(s: SameSite): (r: Option<string>)
    ensures r.Some? <==> s == SameSiteFlag(true) || (s.SameSiteText? && s.text in {"lax", "strict", "none"})
    ensures r == Some("Strict") <==> s == SameSiteFlag(true) || s == SameSiteText("strict")
    ensures r == Some("Lax") <==> s == SameSiteText("lax")
    ensures r == Some("None") <==> s == SameSiteText("none")
  {
    match s
    case SameSiteAbsent => None
    case SameSiteFlag(on) => if on then Some("Strict") else None
    case SameSiteText(t) =>
      if t == "lax" then Some("Lax")
      else if t == "strict" then Some("Strict")
      else if t == "none" then Some("None")
      else None
  }

  /** `String(Math.floor(n))` for the numbers `String` prints without an exponent. */
  function FloorText(n: Number): (r: string)
    ensures ';' !in r
    ensures n.Finite? ==> SignedValue(r) as real <= n.r < SignedValue(r) as real + 1.0
    ensures n.NotANumber? ==> r == "NaN"
    ensures n.Infinite? ==> r == if n.negative then "-Infinity" else "Infinity"
  {
    match n
    case Finite(r) => IntToString(r.Floor)
    case NotANumber => "NaN"
    case Infinite(negative) => if negative then "-Infinity" else "Infinity"
  }

  /** A present, non-empty `domain`. */
  predicate HasDomain(o: CookieOptions) {
    o.domain.Some? && o.domain.value != ""
  }

  /** An `expires` date that is valid. */
  predicate HasExpiry(o: CookieOptions) {
    o.expires.ExpiresAt? && o.expires.time.Some?
  }

  // The Set-Cookie string, as a specification of what one iteration of
  // `setAllBrowserCookies` assigns to `document.cookie`.

  function OptionalSegments(o: CookieOptions, p: Primitives): seq<string> {
    DomainSegment(o) + MaxAgeSegment(o) + ExpiresSegment(o, p) + SameSiteSegment(o) + SecureSegment(o)
  }

  /** The segments written for `c`: the pair, `Path`, then the optional attributes in order. */
  function Segments(c: BrowserCookie, p: Primitives): seq<string> {
    var o := c.options.GetOr(NoOptions);
    [c.name + "=" + p.encode(c.value), "Path=" + o.path.GetOr("/")] + OptionalSegments(o, p)
  }

  function SetCookieString(c: BrowserCookie, p: Primitives): string {
    Join(Segments(c, p), "; ")
  }

  /** The segments for one cookie, pushed one by one as `setAllBrowserCookies` does. */
  method BuildSegments(c: BrowserCookie, p: Primitives) returns (segments: seq<string>)
    ensures segments == Segments(c, p)
  {
    segments := [c.name + "=" + p.encode(c.value)];
    var o := if c.options.Some? then c.options.value else NoOptions;
    segments := segments + ["Path=" + (if o.path.Some? then o.path.value else "/")];
    var optional: seq<string> := [];
    if o.domain.Some? && o.domain.value != "" {
      optional := optional + ["Domain=" + o.domain.value];
    }
    assert optional == DomainSegment(o);
    if o.maxAge.Some? {
      optional := optional + ["Max-Age=" + FloorText(o.maxAge.value)];
    }
    assert optional == DomainSegment(o) + MaxAgeSegment(o);
    if o.expires.ExpiresAt? && o.expires.time.Some? {
      optional := optional + ["Expires=" + p.utc(o.expires.time.value)];
    }
    assert optional == DomainSegment(o) + MaxAgeSegment(o) + ExpiresSegment(o, p);
    var sameSite := FormatSameSite(o.sameSite);
    if sameSite.Some? {
      optional := optional + ["SameSite=" + sameSite.value];
    }
    assert optional == DomainSegment(o) + MaxAgeSegment(o) + ExpiresSegment(o, p) + SameSiteSegment(o);
    if o.secure {
      optional := optional + ["Secure"];
    }
    assert optional == OptionalSegments(o, p);
    assert o == c.options.GetOr(NoOptions);
    assert segments == [c.name + "=" + p.encode(c.value), "Path=" + o.path.GetOr("/")];
    segments := segments + optional;
  }

  /** The page's `document`: every string assigned to `document.cookie`, in order. */
  class Document {
    var cookieWrites: seq<string>

    constructor()
      ensures cookieWrites == []
    {
      cookieWrites := [];
    }
  }

  /**
   * `setAllBrowserCookies`: one assignment per cookie, in order, each the
   * cookie's Set-Cookie string, and none outside a browser.
   */
  method SetAllBrowserCookies(doc: Document, isBrowser: bool, cookies: seq<BrowserCookie>, p: Primitives)
    modifies doc
    ensures !isBrowser ==> doc.cookieWrites == old(doc.cookieWrites)
    ensures isBrowser ==> && |doc.cookieWrites| == |old(doc.cookieWrites)| + |cookies|
                          && doc.cookieWrites[..|old(doc.cookieWrites)|] == old(doc.cookieWrites)
                          && forall k :: 0 <= k < |cookies| ==>
                               doc.cookieWrites[|old(doc.cookieWrites)| + k] == SetCookieString(cookies[k], p)
  {
    if !isBrowser {
      return;
    }
    ghost var before := doc.cookieWrites;
    for i := 0 to |cookies|
      invariant |doc.cookieWrites| == |before| + i
      invariant doc.cookieWrites[..|before|] == before
      invariant forall k :: 0 <= k < i ==> doc.cookieWrites[|before| + k] == SetCookieString(cookies[k], p)
    {
      var segments := BuildSegments(cookies[i], p);
      doc.cookieWrites := doc.cookieWrites + [Join(segments, "; ")];
    }
  }

  /** The name of an attribute segment: the text before its first `=`, or all of it. */
  function AttributeName(segment: string): (r: string)
    ensures |r| <= |segment| && r == segment[..|r|]
  {
    if segment == [] || segment[0] == '=' then [] else [segment[0]] + AttributeName(segment[1..])
  }

  /** The attribute names of a list of segments. */
  function AttributeNames(segments: seq<string>): (r: seq<string>)
    ensures |r| == |segments|
  {
    if segments == [] then [] else [AttributeName(segments[0])] + AttributeNames(segments[1..])
  }

  lemma {:induction false} AttributeNamesAppend(a: seq<string>, b: seq<string>)
    ensures AttributeNames(a + b) == AttributeNames(a) + AttributeNames(b)
  {
    if a == [] {
      assert a + b == b;
    } else {
      assert (a + b)[1..] == a[1..] + b;
      assert (a + b)[0] == a[0];
      AttributeNamesAppend(a[1..], b);
    }
  }

  /** The attributes a cookie's options call for, in the order the client writes them. */
  function ExpectedAttributes(o: CookieOptions): seq<string> {
    ["Path"] + OptionalAttributes(o)
  }

  function OptionalAttributes(o: CookieOptions): seq<string> {
    DomainAttribute(o) + MaxAgeAttribute(o) + ExpiresAttribute(o) + SameSiteAttribute(o) + SecureAttribute(o)
  }

  function DomainAttribute(o: CookieOptions): seq<string> { if HasDomain(o) then ["Domain"] else [] }
  function MaxAgeAttribute(o: CookieOptions): seq<string> { if o.maxAge.Some? then ["Max-Age"] else [] }
  function ExpiresAttribute(o: CookieOptions): seq<string> { if HasExpiry(o) then ["Expires"] else [] }
  function SameSiteAttribute(o: CookieOptions): seq<string> { if FormatSameSite(o.sameSite).Some? then ["SameSite"] else [] }
  function SecureAttribute(o: CookieOptions): seq<string> { if o.secure then ["Secure"] else [] }

  lemma {:induction false} SplitAtFirst(w: string, rest: string, seg: string)
    requires '=' !in w && seg == w + "=" + rest
    ensures AttributeName(seg) == w
  {
    if w != [] {
      assert seg[1..] == w[1..] + "=" + rest;
      SplitAtFirst(w[1..], rest, seg[1..]);
    }
  }

  lemma {:induction false} SplitWhole(w: string)
    requires '=' !in w
    ensures AttributeName(w) == w
  {
    if w != [] { SplitWhole(w[1..]); }
  }

  /** A segment `w=v` or `w` contributes the one name `w`, or nothing when it is absent. */
  lemma NameOf(present: bool, w: string, seg: string, r: seq<string>)
    requires r == (if present then [seg] else [])
    requires present ==> AttributeName(seg) == w
    ensures AttributeNames(r) == if present then [w] else []
  {
    if present { assert AttributeNames([seg]) == [AttributeName(seg)] + AttributeNames([]); }
  }

  function DomainSegment(o: CookieOptions): seq<string> {
    if HasDomain(o) then ["Domain=" + o.domain.value] else []
  }

  function MaxAgeSegment(o: CookieOptions): seq<string> {
    if o.maxAge.Some? then ["Max-Age=" + FloorText(o.maxAge.value)] else []
  }

  function ExpiresSegment(o: CookieOptions, p: Primitives): seq<string> {
    if HasExpiry(o) then ["Expires=" + p.utc(o.expires.time.value)] else []
  }

  function SameSiteSegment(o: CookieOptions): seq<string> {
    if FormatSameSite(o.sameSite).Some? then ["SameSite=" + FormatSameSite(o.sameSite).value] else []
  }

  function SecureSegment(o: CookieOptions): seq<string> {
    if o.secure then ["Secure"] else []
  }

  lemma DomainName(o: CookieOptions)
    ensures AttributeNames(DomainSegment(o)) == DomainAttribute(o)
  {
    if HasDomain(o) { SplitAtFirst("Domain", o.domain.value, "Domain=" + o.domain.value); }
    NameOf(HasDomain(o), "Domain", if HasDomain(o) then "Domain=" + o.domain.value else "", DomainSegment(o));
  }

  lemma MaxAgeName(o: CookieOptions)
    ensures AttributeNames(MaxAgeSegment(o)) == MaxAgeAttribute(o)
  {
    if o.maxAge.Some? { SplitAtFirst("Max-Age", FloorText(o.maxAge.value), "Max-Age=" + FloorText(o.maxAge.value)); }
    NameOf(o.maxAge.Some?, "Max-Age", if o.maxAge.Some? then "Max-Age=" + FloorText(o.maxAge.value) else "", MaxAgeSegment(o));
  }

  lemma ExpiresName(o: CookieOptions, p: Primitives)
    ensures AttributeNames(ExpiresSegment(o, p)) == ExpiresAttribute(o)
  {
    if HasExpiry(o) { SplitAtFirst("Expires", p.utc(o.expires.time.value), "Expires=" + p.utc(o.expires.time.value)); }
    NameOf(HasExpiry(o), "Expires", if HasExpiry(o) then "Expires=" + p.utc(o.expires.time.value) else "", ExpiresSegment(o, p));
  }

  lemma SameSiteName(o: CookieOptions)
    ensures AttributeNames(SameSiteSegment(o)) == SameSiteAttribute(o)
  {
    if FormatSameSite(o.sameSite).Some? {
      SplitAtFirst("SameSite", FormatSameSite(o.sameSite).value, "SameSite=" + FormatSameSite(o.sameSite).value);
    }
    NameOf(FormatSameSite(o.sameSite).Some?, "SameSite",
           if FormatSameSite(o.sameSite).Some? then "SameSite=" + FormatSameSite(o.sameSite).value else "", SameSiteSegment(o));
  }

  lemma SecureName(o: CookieOptions)
    ensures AttributeNames(SecureSegment(o)) == SecureAttribute(o)
  {
    if o.secure { SplitWhole("Secure"); }
    NameOf(o.secure, "Secure", "Secure", SecureSegment(o));
  }

  /** The optional segments name exactly the optional attributes the options call for, in order. */
  lemma OptionalNames(o: CookieOptions, p: Primitives)
    ensures AttributeNames(OptionalSegments(o, p)) == OptionalAttributes(o)
  {
    DomainName(o);
    MaxAgeName(o);
    ExpiresName(o, p);
    SameSiteName(o);
    SecureName(o);
    NamesOfFive(DomainSegment(o), MaxAgeSegment(o), ExpiresSegment(o, p), SameSiteSegment(o), SecureSegment(o));
  }

  lemma NamesOfFive(d: seq<string>, m: seq<string>, e: seq<string>, ss: seq<string>, sc: seq<string>)
    ensures AttributeNames(d + m + e + ss + sc)
            == AttributeNames(d) + AttributeNames(m) + AttributeNames(e) + AttributeNames(ss) + AttributeNames(sc)
  {
    AttributeNamesAppend(d, m);
    AttributeNamesAppend(d + m, e);
    AttributeNamesAppend(d + m + e, ss);
    AttributeNamesAppend(d + m + e + ss, sc);
  }

  /**
   * The written string read back as RFC 6265 section 4.1.1 does: split on
   * "; ", it gives the pair `name=encoded value` first and then the
   * attributes: `Path` (`/` by default) always, and each optional one only
   * under its condition, in the fixed order Domain, Max-Age, Expires,
   * SameSite, Secure. No text written may hold a `;`.
   */
  lemma SetCookieLayout(c: BrowserCookie, p: Primitives)
    requires ';' !in c.name && ';' !in p.encode(c.value)
    requires var o := c.options.GetOr(NoOptions);
             && ';' !in o.path.GetOr("/")
             && (o.domain.Some? ==> ';' !in o.domain.value)
             && (HasExpiry(o) ==> ';' !in p.utc(o.expires.time.value))
    ensures var parts := Split(SetCookieString(c, p), "; ");
            var o := c.options.GetOr(NoOptions);
            && parts == Segments(c, p)
            && parts[0] == c.name + "=" + p.encode(c.value)
            && parts[1] == "Path=" + o.path.GetOr("/")
            && AttributeNames(parts[1..]) == ExpectedAttributes(o)
  {
    NoSemicolonInSegments(c, p);
    SplitJoin(Segments(c, p), "; ");
    SegmentNames(c, p);
  }

  /** After the pair, the segments name the expected attributes. */
  lemma SegmentNames(c: BrowserCookie, p: Primitives)
    ensures AttributeNames(Segments(c, p)[1..]) == ExpectedAttributes(c.options.GetOr(NoOptions))
  {
    var o := c.options.GetOr(NoOptions);
    var path := "Path=" + o.path.GetOr("/");
    SplitAtFirst("Path", o.path.GetOr("/"), path);
    OptionalNames(o, p);
    assert Segments(c, p)[1..] == [path] + OptionalSegments(o, p);
    AttributeNamesAppend([path], OptionalSegments(o, p));
    assert AttributeNames([path]) == ["Path"] + AttributeNames([]);
    assert AttributeNames(Segments(c, p)[1..]) == ["Path"] + OptionalAttributes(o);
  }

  /** No segment holds a `;`. */
  predicate NoSemicolons(segments: seq<string>) {
    forall k :: 0 <= k < |segments| ==> ';' !in segments[k]
  }

  lemma NoSemicolonsAppend(a: seq<string>, b: seq<string>)
    requires NoSemicolons(a) && NoSemicolons(b)
    ensures NoSemicolons(a + b)
  {
    assert forall k :: |a| <= k < |a + b| ==> (a + b)[k] == b[k - |a|];
  }

  lemma NoSemicolonInSegments(c: BrowserCookie, p: Primitives)
    requires ';' !in c.name && ';' !in p.encode(c.value)
    requires var o := c.options.GetOr(NoOptions);
             && ';' !in o.path.GetOr("/")
             && (o.domain.Some? ==> ';' !in o.domain.value)
             && (HasExpiry(o) ==> ';' !in p.utc(o.expires.time.value))
    ensures forall k :: 0 <= k < |Segments(c, p)| ==> "; "[0] !in Segments(c, p)[k]
  {
    var o := c.options.GetOr(NoOptions);
    NoSemicolonAfter("=", p.encode(c.value));
    NoSemicolonAfter(c.name, "=" + p.encode(c.value));
    assert c.name + "=" + p.encode(c.value) == c.name + ("=" + p.encode(c.value));
    NoSemicolonAfter("Path=", o.path.GetOr("/"));
    assert NoSemicolons([c.name + "=" + p.encode(c.value), "Path=" + o.path.GetOr("/")]);
    if HasDomain(o) { NoSemicolonAfter("Domain=", o.domain.value); }
    assert NoSemicolons(DomainSegment(o));
    if o.maxAge.Some? { NoSemicolonAfter("Max-Age=", FloorText(o.maxAge.value)); }
    assert NoSemicolons(MaxAgeSegment(o));
    if HasExpiry(o) { NoSemicolonAfter("Expires=", p.utc(o.expires.time.value)); }
    assert NoSemicolons(ExpiresSegment(o, p));
    if FormatSameSite(o.sameSite).Some? { NoSemicolonAfter("SameSite=", FormatSameSite(o.sameSite).value); }
    assert NoSemicolons(SameSiteSegment(o));
    assert NoSemicolons(SecureSegment(o));
    NoSemicolonsAppend(DomainSegment(o), MaxAgeSegment(o));
    NoSemicolonsAppend(DomainSegment(o) + MaxAgeSegment(o), ExpiresSegment(o, p));
    NoSemicolonsAppend(DomainSegment(o) + MaxAgeSegment(o) + ExpiresSegment(o, p), SameSiteSegment(o));
    NoSemicolonsAppend(DomainSegment(o) + MaxAgeSegment(o) + ExpiresSegment(o, p) + SameSiteSegment(o), SecureSegment(o));
    NoSemicolonsAppend([c.name + "=" + p.encode(c.value), "Path=" + o.path.GetOr("/")], OptionalSegments(o, p));
  }

  lemma NoSemicolonAfter(head: string, t: string)
    requires ';' !in head && ';' !in t
    ensures ';' !in head + t
  {
  }

  // Reading `document.cookie`.

  /** The text after the first `=` of a piece: `valueParts.join('=')`. */
  function RawValue(piece: string): string {
    Join(Split(piece, "=")[1..], "=")
  }

  /** The name of a piece: the text before its first `=`, or all of it. */
  function PieceName(piece: string): string {
    Split(piece, "=")[0]
  }

  /**
   * One piece `name=value`, its value decoded; `None` when decoding fails.
   * The name is the text before the first `=` and holds none; a piece
   * without `=` is a name alone, whose value is the decoding of "".
   */
  function ParsePiece(piece: string, decode: string -> Option<string>): (r: Option<(string, string)>)
    ensures r.Some? <==> decode(RawValue(piece)).Some?
    ensures r.Some? ==> '=' !in r.value.0 && r.value.1 == decode(RawValue(piece)).value
    ensures r.Some? && '=' in piece ==> piece == r.value.0 + "=" + RawValue(piece)
    ensures '=' !in piece ==> (r.Some? <==> decode("").Some?)
    ensures '=' !in piece && r.Some? ==> r.value == (piece, decode("").value)
  {
    PieceLayout(piece);
    match decode(RawValue(piece))
    case None => None
    case Some(v) => Some((PieceName(piece), v))
  }

  /** The pieces parsed in order; `None` as soon as one fails to decode. */
  function ParsePieces(pieces: seq<string>, decode: string -> Option<string>): (r: Option<seq<(string, string)>>)
    ensures r.Some? <==> forall k :: 0 <= k < |pieces| ==> ParsePiece(pieces[k], decode).Some?
    ensures r.Some? ==> |r.value| == |pieces|
                        && forall k :: 0 <= k < |pieces| ==> r.value[k] == ParsePiece(pieces[k], decode).value
  {
    if pieces == [] then Some([])
    else
      match ParsePiece(pieces[0], decode)
      case None => None
      case Some(pair) =>
        match ParsePieces(pieces[1..], decode)
        case None => None
        case Some(rest) => Some([pair] + rest)
  }

  /** The non-empty `"; "`-separated pieces of a `document.cookie` string. */
  function CookiePieces(cookie: string): seq<string> {
    NonEmpty(Split(cookie, "; "))
  }

  /**
   * `getAllBrowserCookies`: nothing outside a browser or for an empty
   * `document.cookie`; otherwise one pair per non-empty `"; "`-separated
   * piece. `None` stands for the exception a malformed escape raises.
   */
  function GetAllBrowserCookies(isBrowser: bool, cookie: string, decode: string -> Option<string>): (r: Option<seq<(string, string)>>)
    ensures !isBrowser || cookie == "" ==> r == Some([])
    ensures isBrowser && cookie != "" ==>
              var pieces := CookiePieces(cookie);
              && (r.Some? <==> forall k :: 0 <= k < |pieces| ==> decode(RawValue(pieces[k])).Some?)
              && (r.Some? ==> |r.value| == |pieces|)
    ensures isBrowser && cookie != "" && r.Some? ==>
              var pieces := CookiePieces(cookie);
              forall k :: 0 <= k < |r.value| ==>
                && pieces[k] != ""
                && '=' !in r.value[k].0
                && r.value[k].1 == decode(RawValue(pieces[k])).value
                && (pieces[k] == r.value[k].0 || pieces[k] == r.value[k].0 + "=" + RawValue(pieces[k]))
  {
    if !isBrowser || cookie == "" then Some([])
    else ParsePieces(CookiePieces(cookie), decode)
  }

  lemma NoSeparatorBeforeFirst(s: string, i: nat)
    requires IndexOf(s, "=") == Some(i)
    ensures '=' !in s[..i]
  {
    forall j | 0 <= j < i ensures s[j] != '=' {
      assert !IsAt(s, "=", j);
      assert s[j..j + 1] == [s[j]];
    }
  }

  /**
   * A piece is its name, then `=` and its raw value, when it holds an `=`,
   * and its name alone with an empty raw value otherwise; the name never
   * holds an `=`.
   */
  lemma PieceLayout(piece: string)
    ensures '=' !in PieceName(piece)
    ensures '=' in piece ==> piece == PieceName(piece) + "=" + RawValue(piece)
    ensures '=' !in piece ==> PieceName(piece) == piece && RawValue(piece) == ""
  {
    var parts := Split(piece, "=");
    match IndexOf(piece, "=")
    case None =>
      assert parts == [piece];
      forall j | 0 <= j < |piece| ensures piece[j] != '=' {
        assert !IsAt(piece, "=", j);
        assert piece[j..j + 1] == [piece[j]];
      }
    case Some(i) =>
      NoSeparatorBeforeFirst(piece, i);
      assert parts == [piece[..i]] + Split(piece[i + 1..], "=");
      JoinSplit(piece[i + 1..], "=");
      assert parts[1..] == Split(piece[i + 1..], "=");
      SplitAround(piece, "=", i);
      assert piece[i..i + 1] == "=";
  }

  /** An attribute's name is read off a segment the way a cookie's name is read off a piece. */
  lemma AttributeNameIsPieceName(segment: string)
    ensures AttributeName(segment) == PieceName(segment)
  {
    PieceLayout(segment);
    if '=' in segment {
      SplitAtFirst(PieceName(segment), RawValue(segment), segment);
    } else {
      SplitWhole(segment);
    }
  }

  /** A pair written as `name=encoded value`. */
  function PairText(name: string, value: string, encode: string -> string): string {
    name + "=" + encode(value)
  }

  function PairTexts(pairs: seq<(string, string)>, encode: string -> string): (r: seq<string>)
    ensures |r| == |pairs|
    ensures forall k :: 0 <= k < |r| ==> r[k] == PairText(pairs[k].0, pairs[k].1, encode)
  {
    if pairs == [] then [] else [PairText(pairs[0].0, pairs[0].1, encode)] + PairTexts(pairs[1..], encode)
  }

  /** The pairs are safe to write: names hold no `=` or `;`, encoded values no `;`, and decoding undoes encoding. */
  ghost predicate Writable(pairs: seq<(string, string)>, p: Primitives) {
    forall k :: 0 <= k < |pairs| ==>
      && '=' !in pairs[k].0 && ';' !in pairs[k].0
      && ';' !in p.encode(pairs[k].1)
      && p.decode(p.encode(pairs[k].1)) == Some(pairs[k].1)
  }

  lemma ParsePairText(name: string, value: string, p: Primitives)
    requires '=' !in name && p.decode(p.encode(value)) == Some(value)
    ensures ParsePiece(PairText(name, value, p.encode), p.decode) == Some((name, value))
  {
    var piece := PairText(name, value, p.encode);
    var e := p.encode(value);
    FirstSeparatorAfter(name, e, "=");
    assert piece[|name| + 1..] == e;
    assert piece[..|name|] == name;
    assert Split(piece, "=") == [name] + Split(e, "=");
    assert Split(piece, "=")[1..] == Split(e, "=");
    JoinSplit(e, "=");
  }

  lemma {:induction false} NonEmptyKeeps(parts: seq<string>)
    requires forall k :: 0 <= k < |parts| ==> parts[k] != ""
    ensures NonEmpty(parts) == parts
  {
    if parts != [] {
      NonEmptyKeeps(parts[1..]);
    }
  }

  /**
   * What a cookie header built from `name=encoded value` pairs holds is
   * read back as exactly those pairs, in order.
   */
  lemma ReadWhatWasWritten(pairs: seq<(string, string)>, p: Primitives)
    requires Writable(pairs, p)
    ensures GetAllBrowserCookies(true, Join(PairTexts(pairs, p.encode), "; "), p.decode) == Some(pairs)
  {
    var texts := PairTexts(pairs, p.encode);
    var header := Join(texts, "; ");
    if pairs == [] {
      return;
    }
    forall k | 0 <= k < |texts| ensures "; "[0] !in texts[k] && texts[k] != "" {
      NoSemicolonAfter(pairs[k].0, "=");
      NoSemicolonAfter(pairs[k].0 + "=", p.encode(pairs[k].1));
      assert texts[k][|pairs[k].0|] == '=';
    }
    SplitJoin(texts, "; ");
    NonEmptyKeeps(texts);
    assert header != "" by {
      if |texts| == 1 { assert header == texts[0]; }
      else { assert header == texts[0] + "; " + Join(texts[1..], "; "); }
    }
    forall k | 0 <= k < |pairs| ensures ParsePiece(texts[k], p.decode) == Some(pairs[k]) {
      ParsePairText(pairs[k].0, pairs[k].1, p);
    }
    var r := ParsePieces(texts, p.decode);
    assert r.Some?;
    assert r.value == pairs;
  }

  // The lazily created client.

  /** A Supabase browser client; outside a browser it has no cookie adapter. */
  class SupabaseBrowserClient {
    const persistSession: bool
    const autoRefreshToken: bool
    const hasCookieAdapter: bool

    constructor(isBrowser: bool)
      ensures persistSession && autoRefreshToken
      ensures hasCookieAdapter == isBrowser
    {
      persistSession := true;
      autoRefreshToken := true;
      hasCookieAdapter := isBrowser;
    }
  }

  /** The module-level `client` variable. */
  class ClientCache {
    var client: SupabaseBrowserClient?

    constructor()
      ensures client == null
    {
      client := null;
    }

    /** `createClient`: the cached client when there is one, otherwise a new one that is cached. */
    method CreateClient(isBrowser: bool) returns (c: SupabaseBrowserClient)
      modifies this
      ensures old(client) != null ==> c == old(client)
      ensures old(client) == null ==> fresh(c) && c.persistSession && c.autoRefreshToken && c.hasCookieAdapter == isBrowser
      ensures client == c
    {
      if client == null {
        client := new SupabaseBrowserClient(isBrowser);
      }
      c := client;
    }
  }

  /** Two calls hand out the same client. */
  method CreateClientTwice(cache: ClientCache, isBrowser: bool) returns (first: SupabaseBrowserClient, second: SupabaseBrowserClient)
    modifies cache
    ensures first == second && cache.client == first
  {
    first := cache.CreateClient(isBrowser);
    second := cache.CreateClient(isBrowser);
  }
}
