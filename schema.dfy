/**
 * The part of zod's parsing semantics the validation schemas use.
 *
 * A field parse ends in one of three states, as in zod: `Valid`, `Dirty`
 * (a check such as `min`, `max`, `url` or a `refine` failed, but parsing
 * went on and later refinements still see the value) or `Aborted` (a type
 * error, e.g. a missing required string; nothing later runs). A `transform`
 * runs only on a `Valid` value. An object is valid only when every field is;
 * an object-level `refine` runs when no field aborted.
 */
module Schema {
  import opened Wrappers
  import opened Strings

  /** A JavaScript value as a schema receives it. */
  datatype Value =
    | Undefined
    | Null
    | Bool(b: bool)
    | Num(n: real)
    | NaN
    | Infinity(negative: bool)
    | Str(s: string)
    | Array
    | Object

  /** One zod issue: the field it is attached to ("" for the object itself) and its message. */
  datatype Issue = Issue(path: string, message: string)

  datatype Parsed<T> = Valid(value: T) | Dirty(value: T, issues: seq<Issue>) | Aborted(issues: seq<Issue>) {
    /** The issues this parse reported, none when valid. */
    function Issues(): seq<Issue> {
      if Valid? then [] else issues
    }
  }

  /** Some reported issue is attached to `path`. */
  predicate HasIssueOn(issues: seq<Issue>, path: string) {
    exists k :: 0 <= k < |issues| && issues[k].path == path
  }

  /** Every reported issue is attached to `path`. */
  predicate OnlyOn(issues: seq<Issue>, path: string) {
    forall k :: 0 <= k < |issues| ==> issues[k].path == path
  }

  /** The type name zod puts in an `invalid_type` message. */
  function TypeName(v: Value): string {
    match v
    case Undefined => "undefined"
    case Null => "null"
    case Bool(_) => "boolean"
    case Num(_) => "number"
    case NaN => "nan"
    case Infinity(_) => "number"
    case Str(_) => "string"
    case Array => "array"
    case Object => "object"
  }

  /**
   * The issue zod reports when `v` is not of the `expected` type:
   * the schema's `required_error` (or "Required") when it is missing,
   * "Expected <type>, received <type>" otherwise.
   */
  function TypeIssue(path: string, expected: string, v: Value, requiredError: Option<string>): (i: Issue)
    ensures i.path == path
    ensures v.Undefined? && requiredError.Some? ==> i.message == requiredError.value
  {
    if v.Undefined? then Issue(path, requiredError.GetOr("Required"))
    else Issue(path, "Expected " + expected + ", received " + TypeName(v))
  }

  /** zod's default `max` message for strings. */
  function TooLongMessage(max: nat): string {
    "String must contain at most " + NatToString(max) + " character(s)"
  }

  /** The `min`/`max` length checks, both run in order on the same string. */
  function LengthIssues(path: string, s: string, min: nat, minMessage: string, max: nat, maxMessage: string): (r: seq<Issue>)
    ensures r == [] <==> min <= Utf16Length(s) <= max
    ensures OnlyOn(r, path)
  {
    (if Utf16Length(s) < min then [Issue(path, minMessage)] else [])
    + (if Utf16Length(s) > max then [Issue(path, maxMessage)] else [])
  }

  /**
   * `z.string({ required_error }).trim().min(min).max(max)`: a required string,
   * trimmed, whose trimmed UTF-16 length must lie in `min..max`.
   */
  function TrimmedString(path: string, v: Value, requiredError: Option<string>,
                         min: nat, minMessage: string, max: nat, maxMessage: string): (p: Parsed<string>)
    ensures p.Valid? <==> v.Str? && min <= Utf16Length(Trim(v.s)) <= max
    ensures p.Valid? ==> p.value == Trim(v.s)
    ensures p.Aborted? <==> !v.Str?
    ensures p.Aborted? && v.Undefined? && requiredError.Some? ==> p.issues == [Issue(path, requiredError.value)]
    ensures OnlyOn(p.Issues(), path) && (!p.Valid? ==> p.issues != [])
  {
    match v
    case Str(s) =>
      var t := Trim(s);
      var issues := LengthIssues(path, t, min, minMessage, max, maxMessage);
      if issues == [] then Valid(t) else Dirty(t, issues)
    case _ => Aborted([TypeIssue(path, "string", v, requiredError)])
  }

  /** `z.string().min(min).max(max)` without trimming, as the signup schema uses it. */
  function BoundedString(path: string, v: Value, min: nat, minMessage: string, max: nat, maxMessage: string): (p: Parsed<string>)
    ensures p.Valid? <==> v.Str? && min <= Utf16Length(v.s) <= max
    ensures p.Valid? ==> p.value == v.s
    ensures p.Aborted? <==> !v.Str?
    ensures OnlyOn(p.Issues(), path) && (!p.Valid? ==> p.issues != [])
  {
    match v
    case Str(s) =>
      var issues := LengthIssues(path, s, min, minMessage, max, maxMessage);
      if issues == [] then Valid(s) else Dirty(s, issues)
    case _ => Aborted([TypeIssue(path, "string", v, None)])
  }

  /** `z.boolean().default(false)`: a missing flag reads as `false`. */
  function BooleanDefaultFalse(path: string, v: Value): (p: Parsed<bool>)
    ensures p.Valid? <==> v.Undefined? || v.Bool?
    ensures p.Valid? ==> p.value == (v.Bool? && v.b)
    ensures !p.Dirty? && OnlyOn(p.Issues(), path) && (!p.Valid? ==> p.issues != [])
  {
    match v
    case Undefined => Valid(false)
    case Bool(b) => Valid(b)
    case _ => Aborted([TypeIssue(path, "boolean", v, None)])
  }

  /**
   * `first.or(z.literal(''))`, given how `first` parsed `v`: the first
   * option that is valid wins; otherwise a dirty first option is kept;
   * otherwise zod reports "Invalid input" for the union.
   */
  function OrEmptyLiteral(path: string, v: Value, first: Parsed<Option<string>>): (p: Parsed<Option<string>>)
    requires OnlyOn(first.Issues(), path)
    ensures p.Valid? <==> first.Valid? || v == Str("")
    ensures p.Valid? ==> p.value == (if first.Valid? then first.value else Some(""))
    ensures p.Dirty? ==> p == first
    ensures p.Aborted? ==> p.issues == [Issue(path, "Invalid input")]
    ensures OnlyOn(p.Issues(), path) && (!p.Valid? ==> p.issues != [])
  {
    if first.Valid? then first
    else if v == Str("") then Valid(Some(""))
    else if first.Dirty? && first.issues != [] then first
    else Aborted([Issue(path, "Invalid input")])
  }

  /** The messages of the issues attached to `path`, in the order they were reported. */
  function MessagesOn(issues: seq<Issue>, path: string): (r: seq<string>)
    ensures |r| <= |issues|
    ensures HasIssueOn(issues, path) ==> r != [] && r[0] == issues[FirstIssueOn(issues, path)].message
    ensures !HasIssueOn(issues, path) ==> r == []
  {
    if issues == [] then []
    else
      var rest := MessagesOn(issues[1..], path);
      assert HasIssueOn(issues[1..], path) ==> HasIssueOn(issues, path) by {
        if HasIssueOn(issues[1..], path) {
          var k :| 0 <= k < |issues[1..]| && issues[1..][k].path == path;
          assert issues[k + 1].path == path;
        }
      }
      if issues[0].path == path then [issues[0].message] + rest
      else
        FirstIssueOnTail(issues, path);
        rest
  }

  /** The index of the first issue attached to `path`. */
  function FirstIssueOn(issues: seq<Issue>, path: string): (k: nat)
    requires HasIssueOn(issues, path)
    ensures k < |issues| && issues[k].path == path
    ensures forall j :: 0 <= j < k ==> issues[j].path != path
  {
    if issues[0].path == path then 0
    else
      FirstIssueOnTail(issues, path);
      1 + FirstIssueOn(issues[1..], path)
  }

  /** An issue on `path` that is not the first one is an issue of the rest. */
  lemma FirstIssueOnTail(issues: seq<Issue>, path: string)
    requires |issues| > 0
    ensures HasIssueOn(issues, path) && issues[0].path != path ==> HasIssueOn(issues[1..], path)
  {
    if HasIssueOn(issues, path) && issues[0].path != path {
      var k :| 0 <= k < |issues| && issues[k].path == path;
      assert issues[1..][k - 1].path == path;
    }
  }

  /**
   * zod's `flatten().fieldErrors`: every message, grouped by the field it is
   * attached to in the order reported, form-level ones left out.
   */
  function FieldErrors(issues: seq<Issue>): (m: map<string, seq<string>>)
    ensures forall f :: f in m <==> f != "" && HasIssueOn(issues, f)
    ensures forall f :: f in m ==> |m[f]| > 0
    ensures forall f :: f in m ==> m[f] == MessagesOn(issues, f)
  {
    if issues == [] then map[]
    else
      var rest := FieldErrors(issues[1..]);
      var i := issues[0];
      IssuesCons(issues);
      if i.path == "" then rest
      else
        var before := if i.path in rest then rest[i.path] else [];
        assert MessagesOn(issues[1..], i.path) == before;
        rest[i.path := [i.message] + before]
  }

  /** How the first issue contributes to the paths and messages of a list. */
  lemma IssuesCons(issues: seq<Issue>)
    requires |issues| > 0
    ensures forall f :: HasIssueOn(issues, f) <==> f == issues[0].path || HasIssueOn(issues[1..], f)
    ensures forall f :: f != issues[0].path ==> MessagesOn(issues, f) == MessagesOn(issues[1..], f)
    ensures MessagesOn(issues, issues[0].path) == [issues[0].message] + MessagesOn(issues[1..], issues[0].path)
  {
    forall f ensures HasIssueOn(issues, f) <==> f == issues[0].path || HasIssueOn(issues[1..], f) {
      if HasIssueOn(issues[1..], f) {
        var k :| 0 <= k < |issues[1..]| && issues[1..][k].path == f;
        assert issues[k + 1].path == f;
      }
      if HasIssueOn(issues, f) && f != issues[0].path {
        var k :| 0 <= k < |issues| && issues[k].path == f;
        assert issues[1..][k - 1].path == f;
      }
    }
  }

  /** An issue list built from parts carries an issue on `path` exactly when one of the parts does. */
  lemma HasIssueOnAppend(a: seq<Issue>, b: seq<Issue>, path: string)
    ensures HasIssueOn(a + b, path) <==> HasIssueOn(a, path) || HasIssueOn(b, path)
  {
    if HasIssueOn(a + b, path) {
      var k :| 0 <= k < |a + b| && (a + b)[k].path == path;
      if k >= |a| { assert b[k - |a|].path == path; }
    }
    if HasIssueOn(a, path) {
      var k :| 0 <= k < |a| && a[k].path == path;
      assert (a + b)[k].path == path;
    }
    if HasIssueOn(b, path) {
      var k :| 0 <= k < |b| && b[k].path == path;
      assert (a + b)[k + |a|].path == path;
    }
  }
}
