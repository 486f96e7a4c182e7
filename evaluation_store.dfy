/**
 * The `evaluations` collection as `Evaluation` in backend/models/evaluation.py uses it:
 * record shaping on insert, equality queries sorted newest first with a limit, and
 * delete-one by id. The collection is an ordered sequence of stored evaluations;
 * MongoDB's generated ids and `datetime.utcnow()` are inputs.
 */
module EvaluationStore {
  import opened Wrappers
  import opened Json
  import opened Seqs

  /** What the evaluate route hands to `Evaluation.create` besides the scorer's result. */
  datatype Submission = Submission(
    teacherId: Value,
    teacherName: Value,
    studentId: Value,
    studentName: Value,
    studentRollno: Value,
    question: string,
    modelAnswer: string,
    studentAnswer: string,
    extractedText: string,
    maxMarks: int)

  /**
   * A stored evaluation: the document `create` inserts, with the `_id` the driver assigns.
   * Every document of the collection is written by `create`, so every one has all fields.
   */
  datatype Record = Record(
    id: Value,
    submission: Submission,
    marks: Value,
    percentage: Value,
    grade: Value,
    strengths: Value,
    missingPoints: Value,
    feedback: Value,
    createdAt: int,
    updatedAt: int)

  /**
   * The document `create` builds: the submission as given, the scorer's fields each with
   * its default (`marks_awarded` stored as `marks`), and the two timestamps.
   */
  function NewRecord(id: Value, s: Submission, result: Dict, createdAt: int, updatedAt: int): Record {
    Record(id, s,
      Get(result, "marks_awarded", Num(0)),
      Get(result, "percentage", Num(0)),
      Get(result, "grade", Str("N/A")),
      Get(result, "strengths", Arr([])),
      Get(result, "missing_points", Arr([])),
      Get(result, "feedback", Str("")),
      createdAt, updatedAt)
  }

  /** The document as the driver returns it: field names as stored. */
  function ToDict(r: Record): Dict {
    map[
      "_id" := r.id,
      "teacher_id" := r.submission.teacherId,
      "teacher_name" := r.submission.teacherName,
      "student_id" := r.submission.studentId,
      "student_name" := r.submission.studentName,
      "student_rollno" := r.submission.studentRollno,
      "question" := Str(r.submission.question),
      "model_answer" := Str(r.submission.modelAnswer),
      "student_answer" := Str(r.submission.studentAnswer),
      "extracted_text" := Str(r.submission.extractedText),
      "max_marks" := Num(r.submission.maxMarks),
      "marks" := r.marks,
      "percentage" := r.percentage,
      "grade" := r.grade,
      "strengths" := r.strengths,
      "missing_points" := r.missingPoints,
      "feedback" := r.feedback,
      "created_at" := Date(r.createdAt),
      "updated_at" := Date(r.updatedAt)]
  }

  /** The stored document carries the `_id` the driver assigned and the submission's ids as passed. */
  lemma NewRecordKeepsIds(id: Value, s: Submission, result: Dict, createdAt: int, updatedAt: int)
    ensures var d := ToDict(NewRecord(id, s, result, createdAt, updatedAt));
      d["_id"] == id && d["teacher_id"] == s.teacherId && d["student_id"] == s.studentId
  {
  }

  /** The looked-up names and roll number are stored as passed. */
  lemma NewRecordKeepsNames(id: Value, s: Submission, result: Dict, createdAt: int, updatedAt: int)
    ensures var d := ToDict(NewRecord(id, s, result, createdAt, updatedAt));
      d["teacher_name"] == s.teacherName && d["student_name"] == s.studentName && d["student_rollno"] == s.studentRollno
  {
  }

  lemma NewRecordKeepsTexts(id: Value, s: Submission, result: Dict, createdAt: int, updatedAt: int)
    ensures var d := ToDict(NewRecord(id, s, result, createdAt, updatedAt));
      d["question"] == Str(s.question) && d["model_answer"] == Str(s.modelAnswer) &&
      d["student_answer"] == Str(s.studentAnswer) && d["extracted_text"] == Str(s.extractedText) &&
      d["max_marks"] == Num(s.maxMarks) && d["created_at"] == Date(createdAt)
  {
  }

  /**
   * The scorer's `marks_awarded` is stored under the key `marks` (no `marks_awarded` key is
   * stored), and each missing scorer field is stored at its default.
   */
  lemma NewRecordScores(id: Value, s: Submission, result: Dict, createdAt: int, updatedAt: int)
    ensures var d := ToDict(NewRecord(id, s, result, createdAt, updatedAt));
      d["marks"] == (if "marks_awarded" in result then result["marks_awarded"] else Num(0)) &&
      d["percentage"] == (if "percentage" in result then result["percentage"] else Num(0)) &&
      d["grade"] == (if "grade" in result then result["grade"] else Str("N/A")) &&
      d["strengths"] == (if "strengths" in result then result["strengths"] else Arr([])) &&
      d["missing_points"] == (if "missing_points" in result then result["missing_points"] else Arr([])) &&
      d["feedback"] == (if "feedback" in result then result["feedback"] else Str("")) &&
      "marks_awarded" !in d
  {
  }

  /** The fields the queries filter on. */
  datatype Field = TeacherId | StudentId

  function FieldValue(r: Record, f: Field): Value {
    match f
    case TeacherId => r.submission.teacherId
    case StudentId => r.submission.studentId
  }

  /** `a` comes no later than `b` under `.sort('created_at', -1)`. */
  predicate NewerOrSame(a: Record, b: Record) {
    a.createdAt >= b.createdAt
  }

  predicate NewestFirst(xs: seq<Record>) {
    forall i, j :: 0 <= i < j < |xs| ==> NewerOrSame(xs[i], xs[j])
  }

  /** Put `d` before the first record it is not older than. */
  function InsertByDate(d: Record, xs: seq<Record>): (r: seq<Record>)
    ensures multiset(r) == multiset(xs) + multiset{d}
    ensures |r| == |xs| + 1
  {
    if xs == [] then [d]
    else if NewerOrSame(d, xs[0]) then [d] + xs
    else
      assert xs == [xs[0]] + xs[1..];
      [xs[0]] + InsertByDate(d, xs[1..])
  }

  /** When `d` goes after the head, everything after the head is no newer than it. */
  lemma InsertAfterHead(d: Record, xs: seq<Record>)
    requires xs != [] && !NewerOrSame(d, xs[0]) && NewestFirst(xs)
    ensures forall y :: y in InsertByDate(d, xs[1..]) ==> NewerOrSame(xs[0], y)
  {
    var rest := InsertByDate(d, xs[1..]);
    forall y | y in rest
      ensures NewerOrSame(xs[0], y)
    {
      assert y in multiset(rest);
      if y != d {
        assert y in multiset(xs[1..]);
        var j :| 0 <= j < |xs[1..]| && xs[1..][j] == y;
        assert xs[j + 1] == y;
      }
    }
  }

  /** Inserting into a newest-first sequence keeps it newest first. */
  lemma {:induction false} InsertByDateSorted(d: Record, xs: seq<Record>)
    requires NewestFirst(xs)
    ensures NewestFirst(InsertByDate(d, xs))
  {
    if xs != [] && !NewerOrSame(d, xs[0]) {
      var rest := InsertByDate(d, xs[1..]);
      InsertByDateSorted(d, xs[1..]);
      InsertAfterHead(d, xs);
      var r := [xs[0]] + rest;
      forall i, j | 0 <= i < j < |r|
        ensures NewerOrSame(r[i], r[j])
      {
        if i == 0 {
          assert r[j] in rest;
        } else {
          assert r[i] == rest[i - 1] && r[j] == rest[j - 1];
        }
      }
    }
  }

  /** `.sort('created_at', -1)`: newest first; records with equal dates keep their stored order. */
  function SortNewestFirst(xs: seq<Record>): (r: seq<Record>)
    ensures multiset(r) == multiset(xs) && |r| == |xs|
    ensures NewestFirst(r)
  {
    if xs == [] then []
    else
      assert xs == [xs[0]] + xs[1..];
      InsertByDateSorted(xs[0], SortNewestFirst(xs[1..]));
      InsertByDate(xs[0], SortNewestFirst(xs[1..]))
  }

  /** `.limit(n)`: 0 means no limit, and a negative `n` acts as its absolute value. */
  function Limit(xs: seq<Record>, n: int): (r: seq<Record>)
    ensures n == 0 ==> r == xs
    ensures n != 0 ==> |r| == if |xs| < Abs(n) then |xs| else Abs(n)
    ensures r == xs[..|r|]
  {
    if n == 0 then xs else Take(xs, Abs(n))
  }

  function Abs(n: int): nat {
    if n < 0 then -n else n
  }

  /** A prefix of a newest-first sequence is newest first. */
  lemma NewestFirstPrefix(xs: seq<Record>, n: nat)
    requires NewestFirst(xs) && n <= |xs|
    ensures NewestFirst(xs[..n])
  {
    assert forall i :: 0 <= i < n ==> xs[..n][i] == xs[i];
  }

  /** The records `{field: v}` selects, in stored order. */
  function Matches(docs: seq<Record>, f: Field, v: Value): seq<Record> {
    Filter(docs, r => FieldValue(r, f) == v)
  }

  /** `{field: v}` then `.sort('created_at', -1).limit(limit)`. */
  function FindBy(docs: seq<Record>, f: Field, v: Value, limit: int): seq<Record> {
    Limit(SortNewestFirst(Matches(docs, f, v)), limit)
  }

  /**
   * `r` is a result `.sort('created_at', -1).limit(limit)` may give for `xs`: some newest-first
   * arrangement of all of `xs`, cut to the limit. MongoDB leaves the order of equal dates open.
   */
  ghost predicate NewestLimited(xs: seq<Record>, limit: int, r: seq<Record>) {
    exists s :: multiset(s) == multiset(xs) && NewestFirst(s) && r == Limit(s, limit)
  }

  /** The sorted-and-limited sequence is such a result. */
  lemma SortLimitIsNewestLimited(xs: seq<Record>, limit: int)
    ensures NewestLimited(xs, limit, Limit(SortNewestFirst(xs), limit))
  {
    var s := SortNewestFirst(xs);
    assert multiset(s) == multiset(xs) && NewestFirst(s);
  }

  /**
   * What such a result holds: records of `xs`, newest first, as many as the limit allows;
   * all of `xs` when the limit does not bind; and no record left out is newer than one kept.
   */
  lemma NewestLimitedContents(xs: seq<Record>, limit: int, r: seq<Record>, kept: Record, other: Record)
    requires NewestLimited(xs, limit, r)
    ensures multiset(r) <= multiset(xs) && NewestFirst(r)
    ensures |r| == if limit == 0 || |xs| < Abs(limit) then |xs| else Abs(limit)
    ensures limit == 0 || |xs| <= Abs(limit) ==> multiset(r) == multiset(xs)
    ensures kept in r && other in xs && other.createdAt > kept.createdAt ==> other in r
  {
    var s :| multiset(s) == multiset(xs) && NewestFirst(s) && r == Limit(s, limit);
    assert |s| == |xs| by { assert |multiset(s)| == |s| && |multiset(xs)| == |xs|; }
    assert s == r + s[|r|..];
    NewestFirstPrefix(s, |r|);
    if kept in r && other in xs && other.createdAt > kept.createdAt {
      var i :| 0 <= i < |r| && r[i] == kept;
      assert other in multiset(s);
      var j :| 0 <= j < |s| && s[j] == other;
      assert s[i] == kept;
      assert j < |r|;
      assert s[j] == r[j];
    }
  }

  /** Every result matches and is stored, the results are newest first, and there are at most `limit`. */
  lemma FindByContract(docs: seq<Record>, f: Field, v: Value, limit: int)
    ensures var r := FindBy(docs, f, v, limit);
      (forall i :: 0 <= i < |r| ==> FieldValue(r[i], f) == v && r[i] in docs) &&
      NewestFirst(r) &&
      (limit != 0 ==> |r| <= Abs(limit))
  {
    var p := (r: Record) => FieldValue(r, f) == v;
    var filtered := Matches(docs, f, v);
    var sorted := SortNewestFirst(filtered);
    var r := FindBy(docs, f, v, limit);
    NewestFirstPrefix(sorted, |r|);
    forall i | 0 <= i < |r|
      ensures FieldValue(r[i], f) == v && r[i] in docs
    {
      assert r[i] == sorted[i];
      assert sorted[i] in multiset(filtered);
      assert sorted[i] in filtered;
      assert p(sorted[i]);
    }
  }

  /** With no limit, or when fewer match than the limit, every matching record is returned. */
  lemma FindByComplete(docs: seq<Record>, f: Field, v: Value, limit: int, d: Record)
    requires d in docs && FieldValue(d, f) == v
    requires limit == 0 || |Matches(docs, f, v)| <= Abs(limit)
    ensures d in FindBy(docs, f, v, limit)
  {
    var filtered := Matches(docs, f, v);
    assert d in multiset(filtered);
    assert d in multiset(SortNewestFirst(filtered));
  }

  /** The default limits of the query helpers. */
  const StudentLimit := 10
  const TeacherLimit := 10
  const RecentLimit := 20

  /** The position of the first record with `_id` equal to `id`, if any. */
  function IndexOfId(docs: seq<Record>, id: Value): (r: Option<nat>)
    ensures r.Some? ==> r.value < |docs| && docs[r.value].id == id
    ensures r.Some? ==> forall i :: 0 <= i < r.value ==> docs[i].id != id
    ensures r.None? ==> forall i :: 0 <= i < |docs| ==> docs[i].id != id
  {
    if docs == [] then None
    else if docs[0].id == id then Some(0)
    else match IndexOfId(docs[1..], id)
      case None => None
      case Some(k) => Some(k + 1)
  }

  /** The message `ObjectId(...)` raises for a malformed id. */
  function InvalidIdMessage(text: string): string {
    "'" + text + "' is not a valid ObjectId, it must be a 12-byte input or a 24-character hex string"
  }

  /** The `evaluations` collection. */
  class EvaluationCollection {
    var docs: seq<Record>

    constructor(docs0: seq<Record>)
      ensures docs == docs0
    {
      docs := docs0;
    }

    /** `Evaluation.create`: shape the record, insert it, and return it with its id. */
    method Create(s: Submission, result: Dict, createdAt: int, updatedAt: int, insertedId: Value) returns (evaluation: Record)
      modifies this
      ensures evaluation == NewRecord(insertedId, s, result, createdAt, updatedAt)
      ensures docs == old(docs) + [evaluation]
    {
      evaluation := NewRecord(insertedId, s, result, createdAt, updatedAt);
      docs := docs + [evaluation];
    }

    /** `find_by_student`. */
    function FindByStudent(studentId: Value, limit: int): (r: seq<Record>)
      reads this
      ensures forall i :: 0 <= i < |r| ==> r[i].submission.studentId == studentId && r[i] in docs
      ensures NewestFirst(r)
      ensures limit != 0 ==> |r| <= Abs(limit)
      ensures NewestLimited(Matches(docs, StudentId, studentId), limit, r)
    {
      FindByContract(docs, StudentId, studentId, limit);
      SortLimitIsNewestLimited(Matches(docs, StudentId, studentId), limit);
      FindBy(docs, StudentId, studentId, limit)
    }

    /** `find_by_teacher`. */
    function FindByTeacher(teacherId: Value, limit: int): (r: seq<Record>)
      reads this
      ensures forall i :: 0 <= i < |r| ==> r[i].submission.teacherId == teacherId && r[i] in docs
      ensures NewestFirst(r)
      ensures limit != 0 ==> |r| <= Abs(limit)
      ensures NewestLimited(Matches(docs, TeacherId, teacherId), limit, r)
    {
      FindByContract(docs, TeacherId, teacherId, limit);
      SortLimitIsNewestLimited(Matches(docs, TeacherId, teacherId), limit);
      FindBy(docs, TeacherId, teacherId, limit)
    }

    /** `get_recent_evaluations`: the newest `limit` records. */
    function Recent(limit: int): (r: seq<Record>)
      reads this
      ensures NewestFirst(r) && multiset(r) <= multiset(docs)
      ensures limit != 0 ==> |r| == if |docs| < Abs(limit) then |docs| else Abs(limit)
      ensures NewestLimited(docs, limit, r)
    {
      SortLimitIsNewestLimited(docs, limit);
      var sorted := SortNewestFirst(docs);
      NewestFirstPrefix(sorted, |Limit(sorted, limit)|);
      assert sorted == Limit(sorted, limit) + sorted[|Limit(sorted, limit)|..];
      Limit(sorted, limit)
    }

    /** `get_all`: every record, newest first. */
    function GetAll(): (r: seq<Record>)
      reads this
      ensures multiset(r) == multiset(docs) && NewestFirst(r)
    {
      SortNewestFirst(docs)
    }

    /**
     * `delete`: `delete_one({'_id': ObjectId(evaluation_id)})`. A malformed id raises;
     * otherwise the first record with that id, if any, is removed and the count returned.
     */
    method Delete(evaluationId: string) returns (deleted: Result<nat, string>)
      modifies this
      ensures ParseOid(evaluationId).None? ==> deleted == Err(InvalidIdMessage(evaluationId)) && docs == old(docs)
      ensures ParseOid(evaluationId).Some? ==>
        deleted.Ok? && DeletedOne(old(docs), ParseOid(evaluationId).value, deleted.value, docs)
    {
      var id := ParseOid(evaluationId);
      if id.None? {
        return Err(InvalidIdMessage(evaluationId));
      }
      var k := IndexOfId(docs, id.value);
      if k.None? {
        return Ok(0);
      }
      docs := docs[..k.value] + docs[k.value + 1..];
      return Ok(1);
    }
  }

  /** `after` is `before` with the first record carrying `id` removed, `count` of them (0 or 1). */
  predicate DeletedOne(before: seq<Record>, id: Value, count: nat, after: seq<Record>) {
    match IndexOfId(before, id)
    case None => count == 0 && after == before
    case Some(k) => count == 1 && after == before[..k] + before[k + 1..]
  }

  /** Deleting removes exactly one record carrying the id when there is one, and nothing otherwise. */
  lemma DeleteRemovesAtMostOne(before: seq<Record>, id: Value, count: nat, after: seq<Record>)
    requires DeletedOne(before, id, count, after)
    ensures count <= 1 && |after| == |before| - count
    ensures count == 0 <==> forall d :: d in before ==> d.id != id
    ensures count == 1 ==> exists d :: d in before && d.id == id && multiset(after) + multiset{d} == multiset(before)
    ensures IsSubsequence(after, before)
  {
    match IndexOfId(before, id)
    case None =>
      SubsequenceReflexive(before);
    case Some(k) =>
      assert before == before[..k] + [before[k]] + before[k + 1..];
      assert before[k] in before;
      SkipOneIsSubsequence(before, k);
  }

  /** Dropping the element at `k` leaves a subsequence. */
  lemma {:induction false} SkipOneIsSubsequence<T>(xs: seq<T>, k: nat)
    requires k < |xs|
    ensures IsSubsequence(xs[..k] + xs[k + 1..], xs)
  {
    if k == 0 {
      assert xs[..0] + xs[1..] == xs[1..];
      SubsequenceReflexive(xs[1..]);
    } else {
      SkipOneIsSubsequence(xs[1..], k - 1);
      var a := xs[..k] + xs[k + 1..];
      assert a[0] == xs[0];
      assert a[1..] == xs[1..][..k - 1] + xs[1..][k..];
    }
  }
}
