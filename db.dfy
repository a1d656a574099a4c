/**
 * Row shapes and status enumerations of the `profiles`, `courses`,
 * `assignments` and `submissions` tables, and the store snapshot the
 * guards read. Timestamps are kept as the strings the store returns.
 */
module Db {
  import opened Wrappers

  /** A profile's role; `null` (not yet chosen) is `None` at the use site. */
  datatype Role = Instructor | Learner

  datatype CourseStatus = CourseDraft | CoursePublished | CourseArchived

  datatype AssignmentStatus = AssignmentDraft | AssignmentPublished | AssignmentClosed

  datatype SubmissionStatus = Submitted | Graded | ResubmitRequested

  datatype ProfileRow = ProfileRow(id: string, email: string, name: string, role: Option<Role>, onboarded: bool)

  datatype CourseRow = CourseRow(
    id: string,
    instructorId: string,
    title: string,
    description: Option<string>,
    thumbnailUrl: Option<string>,
    status: CourseStatus)

  datatype AssignmentRow = AssignmentRow(
    id: string,
    courseId: string,
    title: string,
    description: Option<string>,
    dueDate: string,
    allowLateSubmission: bool,
    lateSubmissionDeadline: Option<string>,
    status: AssignmentStatus)

  datatype SubmissionRow = SubmissionRow(
    id: string,
    assignmentId: string,
    learnerId: string,
    content: Option<string>,
    fileUrl: Option<string>,
    submittedAt: string,
    isLate: bool,
    status: SubmissionStatus,
    resubmissionCount: int)

  /** The authenticated user as `auth.getUser()` returns it. */
  datatype User = User(id: string)

  /** A table as one query sees it: its rows, or a failing query. */
  datatype Table<T> = Table(rows: seq<T>, unreachable: bool)

  /** The outcome of `.eq('id', key).maybeSingle()`. */
  datatype Lookup<T> = LookupFailed | NoRow | Found(row: T)

  /** The rows whose key is `key`, in table order. */
  function Matching<T>(rows: seq<T>, keyOf: T -> string, key: string): (r: seq<T>)
    ensures |r| <= |rows|
    ensures forall k :: 0 <= k < |r| ==> keyOf(r[k]) == key
    ensures r == [] <==> forall k :: 0 <= k < |rows| ==> keyOf(rows[k]) != key
  {
    if rows == [] then []
    else if keyOf(rows[0]) == key then [rows[0]] + Matching(rows[1..], keyOf, key)
    else
      var rest := Matching(rows[1..], keyOf, key);
      assert forall k :: 1 <= k < |rows| ==> rows[k] == rows[1..][k - 1];
      rest
  }

  /**
   * `maybeSingle()`: an error when the query fails or more than one row
   * matches, no data when none does, the row when exactly one does.
   */
  function MaybeSingle<T>(t: Table<T>, keyOf: T -> string, key: string): (r: Lookup<T>)
    ensures r.Found? ==> keyOf(r.row) == key && r.row in t.rows
    ensures r.NoRow? <==> !t.unreachable && forall k :: 0 <= k < |t.rows| ==> keyOf(t.rows[k]) != key
    ensures r.Found? <==> !t.unreachable && |Matching(t.rows, keyOf, key)| == 1
    ensures r.Found? ==> r.row == Matching(t.rows, keyOf, key)[0]
    ensures r.LookupFailed? <==> t.unreachable || |Matching(t.rows, keyOf, key)| > 1
  {
    if t.unreachable then LookupFailed
    else
      var m := Matching(t.rows, keyOf, key);
      if |m| == 0 then NoRow
      else if |m| == 1 then (MatchingIn(t.rows, keyOf, key, 0); Found(m[0]))
      else LookupFailed
  }

  lemma {:induction false} MatchingIn<T>(rows: seq<T>, keyOf: T -> string, key: string, k: nat)
    requires k < |Matching(rows, keyOf, key)|
    ensures Matching(rows, keyOf, key)[k] in rows
  {
    if keyOf(rows[0]) == key {
      if k > 0 { MatchingIn(rows[1..], keyOf, key, k - 1); }
    } else {
      MatchingIn(rows[1..], keyOf, key, k);
    }
  }

  function ProfileId(p: ProfileRow): string { p.id }

  function CourseId(c: CourseRow): string { c.id }

  /** When `x` is the only row with key `key` and occurs once, the lookup matches exactly `x`. */
  lemma {:induction false} MatchingSingle<T>(rows: seq<T>, keyOf: T -> string, key: string, x: T)
    requires x in rows && keyOf(x) == key
    requires forall k :: 0 <= k < |rows| && rows[k] != x ==> keyOf(rows[k]) != key
    requires forall k, l :: 0 <= k < l < |rows| && rows[k] == x ==> rows[l] != x
    ensures Matching(rows, keyOf, key) == [x]
  {
    if rows[0] == x {
      assert forall k :: 0 <= k < |rows[1..]| ==> rows[1..][k] == rows[k + 1];
      assert Matching(rows[1..], keyOf, key) == [];
    } else {
      assert forall k :: 0 <= k < |rows[1..]| ==> rows[1..][k] == rows[k + 1];
      MatchingSingle(rows[1..], keyOf, key, x);
    }
  }
}
