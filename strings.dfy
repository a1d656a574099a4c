/**
 * The JavaScript string primitives the core relies on, written out:
 * `String.prototype.trim`, UTF-16 `length`, `startsWith`, `includes`,
 * `split` on a non-empty separator and `Array.prototype.join`.
 */
module Strings {
  import opened Wrappers

  /** The code points `trim` removes: ECMAScript's WhiteSpace and LineTerminator productions. */
  predicate IsWhitespace(c: char) {
    || c == '\t' || c == '\n' || c == '\U{000B}' || c == '\U{000C}' || c == '\r'
    || c == ' ' || c == '\U{00A0}' || c == '\U{1680}'
    || ('\U{2000}' <= c <= '\U{200A}')
    || c == '\U{2028}' || c == '\U{2029}' || c == '\U{202F}' || c == '\U{205F}'
    || c == '\U{3000}' || c == '\U{FEFF}'
  }

  /** Every character of `s` is whitespace (the empty string included). */
  predicate IsBlank(s: string) {
    forall i :: 0 <= i < |s| ==> IsWhitespace(s[i])
  }

  /** Neither end of `s` is whitespace. */
  predicate IsTrimmed(s: string) {
    s == [] || (!IsWhitespace(s[0]) && !IsWhitespace(s[|s| - 1]))
  }

  /** The number of whitespace characters `s` starts with. */
  function LeadingBlanks(s: string): (k: nat)
    ensures k <= |s| && (k < |s| ==> !IsWhitespace(s[k]))
    ensures forall j :: 0 <= j < k ==> IsWhitespace(s[j])
  {
    if |s| > 0 && IsWhitespace(s[0]) then 1 + LeadingBlanks(s[1..]) else 0
  }

  function TrimStart(s: string): (r: string)
    ensures |r| <= |s| && r == s[|s| - |r|..]
    ensures r == [] || !IsWhitespace(r[0])
    ensures IsBlank(s[..|s| - |r|])
  {
    s[LeadingBlanks(s)..]
  }

  function TrimEnd(s: string): (r: string)
    ensures |r| <= |s| && r == s[..|r|]
    ensures r == [] || !IsWhitespace(r[|r| - 1])
    ensures IsBlank(s[|r|..])
  {
    if |s| > 0 && IsWhitespace(s[|s| - 1]) then
      var r := TrimEnd(s[..|s| - 1]);
      assert s[..|s| - 1][..|r|] == s[..|r|];
      assert s[|r|..] == s[..|s| - 1][|r|..] + [s[|s| - 1]];
      r
    else s
  }

  /** The number of whitespace characters `s` ends with. */
  function TrailingBlanks(s: string): (k: nat)
    ensures k <= |s| && (k < |s| ==> !IsWhitespace(s[|s| - 1 - k]))
    ensures forall j :: |s| - k <= j < |s| ==> IsWhitespace(s[j])
  {
    if |s| > 0 && IsWhitespace(s[|s| - 1]) then 1 + TrailingBlanks(s[..|s| - 1]) else 0
  }

  /** A whitespace run at the end that cannot be extended is the one `TrailingBlanks` counts. */
  lemma TrailingBlanksUnique(s: string, k: nat)
    requires k <= |s| && (k < |s| ==> !IsWhitespace(s[|s| - 1 - k]))
    requires forall j :: |s| - k <= j < |s| ==> IsWhitespace(s[j])
    ensures k == TrailingBlanks(s)
  {
  }

  /**
   * `s.trim()`: the slice of `s` between its leading and its trailing
   * whitespace, empty when `s` is whitespace only.
   */
  function Trim(s: string): (r: string)
    ensures IsTrimmed(r)
    ensures LeadingBlanks(s) + |r| <= |s| && r == s[LeadingBlanks(s)..LeadingBlanks(s) + |r|]
    ensures r == [] <==> LeadingBlanks(s) == |s|
    ensures r != [] ==> LeadingBlanks(s) + |r| + TrailingBlanks(s) == |s|
  {
    var t := TrimStart(s);
    var r := TrimEnd(t);
    TrimSlices(s, LeadingBlanks(s), t, r);
    r
  }

  /** The run `Trim` keeps, located in the original string. */
  lemma TrimSlices(s: string, i: nat, t: string, r: string)
    requires i <= |s| && t == s[i..] && (t == [] || !IsWhitespace(t[0]))
    requires |r| <= |t| && r == t[..|r|] && IsBlank(t[|r|..]) && (r == [] || !IsWhitespace(r[|r| - 1]))
    ensures i + |r| <= |s| && r == s[i..i + |r|]
    ensures r == [] <==> i == |s|
    ensures r != [] ==> i + |r| + TrailingBlanks(s) == |s|
  {
    assert s[i..i + |r|] == t[..|r|];
    if r != [] {
      assert t[|r|..] == s[i + |r|..];
      TrimEndAt(s, i + |r|);
    }
  }

  /** A string whose tail from `e` is blank and whose character before `e` is not ends in `|s| - e` blanks. */
  lemma TrimEndAt(s: string, e: nat)
    requires 0 < e <= |s| && !IsWhitespace(s[e - 1]) && IsBlank(s[e..])
    ensures e + TrailingBlanks(s) == |s|
  {
    forall j | e <= j < |s| ensures IsWhitespace(s[j]) {
      assert s[j] == s[e..][j - e];
    }
    TrailingBlanksUnique(s, |s| - e);
  }

  /** Trimming keeps exactly the inner part: a trimmed string is left alone. */
  lemma TrimOfTrimmed(s: string)
    requires IsTrimmed(s)
    ensures Trim(s) == s
  {
  }

  /** Trimming twice is trimming once. */
  lemma TrimIdempotent(s: string)
    ensures Trim(Trim(s)) == Trim(s)
  {
    TrimOfTrimmed(Trim(s));
  }

  /** The trimmed string is empty exactly when the original is whitespace only. */
  lemma TrimEmptyIffBlank(s: string)
    ensures Trim(s) == [] <==> IsBlank(s)
  {
  }

  /** The number of UTF-16 code units JavaScript's `length` counts for `s`. */
  function Utf16Length(s: string): (n: nat)
    ensures |s| <= n <= 2 * |s|
  {
    if s == [] then 0 else (if s[0] as int > 0xFFFF then 2 else 1) + Utf16Length(s[1..])
  }

  /** `s.startsWith(p)`. */
  predicate StartsWith(s: string, p: string) {
    |p| <= |s| && s[..|p|] == p
  }

  /** `needle` occurs in `s` at index `i`. */
  predicate IsAt(s: string, needle: string, i: int) {
    0 <= i && i + |needle| <= |s| && s[i..i + |needle|] == needle
  }

  /** `s.includes(needle)`. */
  predicate Contains(s: string, needle: string) {
    exists i :: 0 <= i <= |s| - |needle| && IsAt(s, needle, i)
  }

  /** A string without the first character of `needle` cannot contain `needle`. */
  lemma NotContainsWithoutFirst(s: string, needle: string)
    requires |needle| > 0 && needle[0] !in s
    ensures !Contains(s, needle)
  {
  }

  /** The index of the first occurrence of `sep` in `s`, as `indexOf` finds it. */
  function IndexOf(s: string, sep: string): (r: Option<nat>)
    requires |sep| > 0
    ensures r.Some? ==> IsAt(s, sep, r.value) && forall j :: 0 <= j < r.value ==> !IsAt(s, sep, j)
    ensures r.None? ==> forall j :: !IsAt(s, sep, j)
    decreases |s|
  {
    if |s| < |sep| then None
    else if s[..|sep|] == sep then Some(0)
    else
      match IndexOf(s[1..], sep)
      case None =>
        assert forall j :: IsAt(s, sep, j) && j > 0 ==> IsAt(s[1..], sep, j - 1);
        None
      case Some(k) =>
        assert IsAt(s, sep, k + 1) by { assert s[k + 1..k + 1 + |sep|] == s[1..][k..k + |sep|]; }
        assert forall j :: 0 < j < k + 1 && IsAt(s, sep, j) ==> IsAt(s[1..], sep, j - 1);
        Some(k + 1)
  }

  /** `s.split(sep)` for a non-empty separator. */
  function Split(s: string, sep: string): (r: seq<string>)
    requires |sep| > 0
    ensures |r| >= 1
    decreases |s|
  {
    match IndexOf(s, sep)
    case None => [s]
    case Some(i) => [s[..i]] + Split(s[i + |sep|..], sep)
  }

  /** `parts.join(sep)`. */
  function Join(parts: seq<string>, sep: string): string {
    if |parts| == 0 then ""
    else if |parts| == 1 then parts[0]
    else parts[0] + sep + Join(parts[1..], sep)
  }

  /** Joining the pieces of a split with the same separator gives the original string back. */
  lemma JoinCons(p: string, parts: seq<string>, sep: string)
    requires |parts| >= 1
    ensures Join([p] + parts, sep) == p + sep + Join(parts, sep)
  {
    assert ([p] + parts)[1..] == parts;
  }

  lemma {:induction false} JoinSplit(s: string, sep: string)
    requires |sep| > 0
    ensures Join(Split(s, sep), sep) == s
    decreases |s|
  {
    var r := IndexOf(s, sep);
    if r.None? {
      assert Split(s, sep) == [s];
    } else {
      var i := r.value;
      var rest := s[i + |sep|..];
      var tail := Split(rest, sep);
      assert Split(s, sep) == [s[..i]] + tail;
      JoinSplit(rest, sep);
      JoinCons(s[..i], tail, sep);
      SplitAround(s, sep, i);
    }
  }

  lemma SplitAround(s: string, sep: string, i: nat)
    requires IsAt(s, sep, i)
    ensures s == s[..i] + sep + s[i + |sep|..]
  {
    assert s == s[..i] + s[i..i + |sep|] + s[i + |sep|..];
  }

  /** Splitting a join recovers the parts when no part holds the separator's first character. */
  lemma {:induction false} SplitJoin(parts: seq<string>, sep: string)
    requires |sep| > 0 && |parts| >= 1
    requires forall k :: 0 <= k < |parts| ==> sep[0] !in parts[k]
    ensures Split(Join(parts, sep), sep) == parts
  {
    var s := Join(parts, sep);
    if |parts| == 1 {
      NoSeparatorIn(s, sep);
      assert Split(s, sep) == [s];
    } else {
      var p := parts[0];
      var rest := Join(parts[1..], sep);
      JoinCons(p, parts[1..], sep);
      assert parts == [p] + parts[1..];
      assert s == p + sep + rest;
      FirstSeparatorAfter(p, rest, sep);
      assert s[|p| + |sep|..] == rest;
      assert s[..|p|] == p;
      SplitJoin(parts[1..], sep);
      assert Split(s, sep) == [p] + Split(rest, sep);
    }
  }

  lemma IsAtFirst(s: string, sep: string, j: int)
    requires |sep| > 0 && IsAt(s, sep, j)
    ensures 0 <= j < |s| && s[j] == sep[0]
  {
    assert s[j] == s[j..j + |sep|][0];
  }

  lemma NoSeparatorIn(s: string, sep: string)
    requires |sep| > 0 && sep[0] !in s
    ensures IndexOf(s, sep) == None
  {
    forall j | IsAt(s, sep, j) ensures 0 <= j < |s| && s[j] == sep[0] {
      IsAtFirst(s, sep, j);
    }
  }

  lemma FirstSeparatorAfter(p: string, rest: string, sep: string)
    requires |sep| > 0 && sep[0] !in p
    ensures IndexOf(p + sep + rest, sep) == Some(|p|)
  {
    var s := p + sep + rest;
    assert IsAt(s, sep, |p|) by { assert s[|p|..|p| + |sep|] == sep; }
    forall j | 0 <= j < |p| && IsAt(s, sep, j) ensures s[j] == sep[0] {
      IsAtFirst(s, sep, j);
    }
  }

  /** `parts.filter(Boolean)`: drops the empty strings, keeping order. */
  function NonEmpty(parts: seq<string>): (r: seq<string>)
    ensures |r| <= |parts|
    ensures forall k :: 0 <= k < |r| ==> r[k] != ""
    ensures forall x :: x != "" ==> multiset(r)[x] == multiset(parts)[x]
  {
    if parts == [] then []
    else
      assert parts == [parts[0]] + parts[1..];
      if parts[0] == "" then NonEmpty(parts[1..])
      else [parts[0]] + NonEmpty(parts[1..])
  }

  /** The filter keeps order: filtering a concatenation filters each part. */
  lemma {:induction false} NonEmptyAppend(a: seq<string>, b: seq<string>)
    ensures NonEmpty(a + b) == NonEmpty(a) + NonEmpty(b)
  {
    if a != [] {
      assert (a + b)[0] == a[0] && (a + b)[1..] == a[1..] + b;
      NonEmptyAppend(a[1..], b);
    } else {
      assert a + b == b;
    }
  }

  predicate IsDigit(c: char) {
    '0' <= c <= '9'
  }

  /** The number a string of decimal digits denotes, most significant first. */
  function DigitsValue(s: string): nat {
    if s == [] then 0
    else DigitsValue(s[..|s| - 1]) * 10 + (if IsDigit(s[|s| - 1]) then s[|s| - 1] as int - '0' as int else 0)
  }

  /** The integer an optionally `-`-signed decimal string denotes. */
  function SignedValue(s: string): int {
    if |s| > 0 && s[0] == '-' then 0 - DigitsValue(s[1..]) else DigitsValue(s)
  }

  /** The decimal digits of `n`, as `String(n)` prints a non-negative integer. */
  function NatToString(n: nat): (r: string)
    ensures |r| >= 1 && forall k :: 0 <= k < |r| ==> IsDigit(r[k])
    ensures DigitsValue(r) == n
    ensures r[0] == '0' <==> n == 0
  {
    var d := [(('0' as int) + n % 10) as char];
    if n < 10 then d
    else
      var r := NatToString(n / 10) + d;
      assert r[..|r| - 1] == NatToString(n / 10);
      r
  }

  /** `String(n)` for an integer below 10^21 in magnitude. */
  function IntToString(n: int): (r: string)
    ensures ';' !in r
    ensures SignedValue(r) == n
    ensures forall k :: 0 <= k < |r| ==> IsDigit(r[k]) || (k == 0 && r[k] == '-' && n < 0)
  {
    if n < 0 then
      var r := "-" + NatToString(-n);
      assert r[1..] == NatToString(-n);
      r
    else NatToString(n)
  }
}
