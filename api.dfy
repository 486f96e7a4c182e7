/**
 * The browser's client for the back end (`services/api.js`): the bodies and URLs it builds.
 * The HTTP transport itself (axios, base URL, timeout) is not modelled; each request is
 * represented by what it sends. A multipart body is a `FormData`, an ordered list of named
 * entries that `evaluateAnswer` fills step by step.
 */
module Api {
  import opened Wrappers
  import opened Text
  import opened Json
  import Seqs
  import Config
  import Pdf
  import Routes
  import ES = EvaluationStore

  /** What `FormData.append` stores: a file stays a file, any other value is sent as its text. */
  datatype Entry = FileEntry(file: Pdf.Upload) | TextEntry(text: string)

  /** A browser `FormData`: the entries in the order they were appended. */
  class FormData {
    var entries: seq<(string, Entry)>

    constructor()
      ensures entries == []
    {
      entries := [];
    }

    method Append(name: string, value: Entry)
      modifies this
      ensures entries == old(entries) + [(name, value)]
    {
      entries := entries + [(name, value)];
    }
  }

  /** The names of the entries, in order. */
  function Names(entries: seq<(string, Entry)>): (r: seq<string>)
    ensures |r| == |entries|
    ensures forall i :: 0 <= i < |r| ==> r[i] == entries[i].0
  {
    seq(|entries|, i requires 0 <= i < |entries| => entries[i].0)
  }

  /** JavaScript truthiness of an optional id: `null` and `''` are falsy. */
  predicate Truthy(id: Option<string>) {
    id.Some? && id.value != []
  }

  /** The entry appended for an optional value: present only when the value is truthy. */
  function Optional(name: string, value: Option<string>): (r: seq<(string, Entry)>)
    ensures |r| <= 1
    ensures |r| == 1 <==> Truthy(value)
    ensures |r| == 1 ==> r[0] == (name, TextEntry(value.value))
  {
    if Truthy(value) then [(name, TextEntry(value.value))] else []
  }

  /** The entries `evaluateAnswer` builds from individual arguments. */
  function EvaluateFields(file: Pdf.Upload, modelAnswer: string, maxMarks: string, question: string,
                          teacherId: Option<string>, studentId: Option<string>): seq<(string, Entry)>
  {
    [("student_file", FileEntry(file)), ("model_answer", TextEntry(modelAnswer)), ("max_marks", TextEntry(maxMarks))]
    + Optional("question", if question == [] then None else Some(question))
    + Optional("teacher_id", teacherId)
    + Optional("student_id", studentId)
  }

  /** `evaluateAnswer`'s first argument: a ready `FormData`, or the student's file. */
  datatype FormDataOrFile = GivenForm(form: FormData) | GivenFile(file: Pdf.Upload)

  /**
   * `evaluateAnswer`: the multipart body it posts. A given `FormData` is sent as it is; otherwise
   * a new one receives the file, the model answer and the marks, then each truthy optional value.
   */
  method EvaluateAnswer(formDataOrFile: FormDataOrFile, modelAnswer: string, maxMarks: string,
                        question: string := "", teacherId: Option<string> := None, studentId: Option<string> := None)
    returns (formData: FormData)
    ensures formDataOrFile.GivenForm? ==> formData == formDataOrFile.form && unchanged(formData)
    ensures formDataOrFile.GivenFile? ==>
      fresh(formData) && formData.entries == EvaluateFields(formDataOrFile.file, modelAnswer, maxMarks, question, teacherId, studentId)
  {
    if formDataOrFile.GivenForm? {
      formData := formDataOrFile.form;
    } else {
      formData := NewEvaluateForm(formDataOrFile.file, modelAnswer, maxMarks, question, teacherId, studentId);
    }
  }

  /** The `FormData` `evaluateAnswer` builds from individual arguments. */
  method NewEvaluateForm(file: Pdf.Upload, modelAnswer: string, maxMarks: string, question: string,
                         teacherId: Option<string>, studentId: Option<string>)
    returns (formData: FormData)
    ensures fresh(formData) && formData.entries == EvaluateFields(file, modelAnswer, maxMarks, question, teacherId, studentId)
  {
    formData := new FormData();
    formData.Append("student_file", FileEntry(file));
    formData.Append("model_answer", TextEntry(modelAnswer));
    formData.Append("max_marks", TextEntry(maxMarks));
    ghost var sent := [("student_file", FileEntry(file)), ("model_answer", TextEntry(modelAnswer)), ("max_marks", TextEntry(maxMarks))];
    assert formData.entries == sent;
    if question != [] {
      formData.Append("question", TextEntry(question));
    }
    sent := sent + Optional("question", if question == [] then None else Some(question));
    assert formData.entries == sent;
    if Truthy(teacherId) {
      formData.Append("teacher_id", TextEntry(teacherId.value));
    }
    sent := sent + Optional("teacher_id", teacherId);
    assert formData.entries == sent;
    if Truthy(studentId) {
      formData.Append("student_id", TextEntry(studentId.value));
    }
  }

  /** The file, the model answer and the marks come first, in that order. */
  lemma RequiredFieldsFirst(file: Pdf.Upload, modelAnswer: string, maxMarks: string, question: string,
                            teacherId: Option<string>, studentId: Option<string>)
    ensures var r := EvaluateFields(file, modelAnswer, maxMarks, question, teacherId, studentId);
      |r| >= 3 && r[..3] == [("student_file", FileEntry(file)), ("model_answer", TextEntry(modelAnswer)), ("max_marks", TextEntry(maxMarks))]
  {
  }

  /** Each optional entry is sent exactly when its value is truthy, and no name is sent twice. */
  lemma OptionalFieldsIff(file: Pdf.Upload, modelAnswer: string, maxMarks: string, question: string,
                          teacherId: Option<string>, studentId: Option<string>)
    ensures var names := Names(EvaluateFields(file, modelAnswer, maxMarks, question, teacherId, studentId));
      ("question" in names <==> question != []) &&
      ("teacher_id" in names <==> Truthy(teacherId)) &&
      ("student_id" in names <==> Truthy(studentId)) &&
      Seqs.NoDuplicates(names) && 3 <= |names| <= 6
  {
    var head := [("student_file", FileEntry(file)), ("model_answer", TextEntry(modelAnswer)), ("max_marks", TextEntry(maxMarks))];
    var q := Optional("question", if question == [] then None else Some(question));
    var t := Optional("teacher_id", teacherId);
    var s := Optional("student_id", studentId);
    NamesConcat(head + q + t, s);
    NamesConcat(head + q, t);
    NamesConcat(head, q);
    var names := Names(head) + OptionalName("question", question != []) + OptionalName("teacher_id", Truthy(teacherId)) +
      OptionalName("student_id", Truthy(studentId));
    assert Names(EvaluateFields(file, modelAnswer, maxMarks, question, teacherId, studentId)) == names;
    assert Names(head) == ["student_file", "model_answer", "max_marks"];
    NamesDistinct(question != [], Truthy(teacherId), Truthy(studentId));
  }

  /** The name list of a concatenation. */
  lemma NamesConcat(a: seq<(string, Entry)>, b: seq<(string, Entry)>)
    ensures Names(a + b) == Names(a) + Names(b)
  {
  }

  /** The name an optional entry contributes. */
  function OptionalName(name: string, sent: bool): seq<string> {
    if sent then [name] else []
  }

  /** The six names are distinct, whichever optional ones are sent. */
  lemma NamesDistinct(q: bool, t: bool, s: bool)
    ensures var names := ["student_file", "model_answer", "max_marks"] + OptionalName("question", q) +
        OptionalName("teacher_id", t) + OptionalName("student_id", s);
      ("question" in names <==> q) && ("teacher_id" in names <==> t) && ("student_id" in names <==> s) &&
      Seqs.NoDuplicates(names) && 3 <= |names| <= 6
  {
  }

  // ---------------------------------------------------------------- what the server reads

  /** The text parts of a multipart body as the server's `request.form` (the first value of a name wins). */
  function FormOf(entries: seq<(string, Entry)>): map<string, string>
  {
    if entries == [] then map[]
    else
      var rest := FormOf(entries[1..]);
      match entries[0].1
      case TextEntry(t) => rest[entries[0].0 := t]
      case FileEntry(_) => rest
  }

  /** The file parts of a multipart body as the server's `request.files`. */
  function FilesOf(entries: seq<(string, Entry)>): map<string, Pdf.Upload>
  {
    if entries == [] then map[]
    else
      var rest := FilesOf(entries[1..]);
      match entries[0].1
      case FileEntry(f) => rest[entries[0].0 := f]
      case TextEntry(_) => rest
  }

  /** Later entries only add names not given earlier: the form of `a + b` is that of `b` overridden by `a`'s. */
  lemma {:induction false} FormOfConcat(a: seq<(string, Entry)>, b: seq<(string, Entry)>)
    ensures FormOf(a + b) == FormOf(b) + FormOf(a)
  {
    if a == [] {
      assert a + b == b;
    } else {
      assert (a + b)[1..] == a[1..] + b;
      assert (a + b)[0] == a[0];
      FormOfConcat(a[1..], b);
      match a[0].1
      case TextEntry(t) =>
        assert FormOf(a) == FormOf(a[1..])[a[0].0 := t];
        assert FormOf(a + b) == (FormOf(b) + FormOf(a[1..]))[a[0].0 := t];
        MergeUpdate(FormOf(b), FormOf(a[1..]), a[0].0, t);
      case FileEntry(_) =>
        assert FormOf(a) == FormOf(a[1..]);
    }
  }

  /** The same for the file parts. */
  lemma {:induction false} FilesOfConcat(a: seq<(string, Entry)>, b: seq<(string, Entry)>)
    ensures FilesOf(a + b) == FilesOf(b) + FilesOf(a)
  {
    if a == [] {
      assert a + b == b;
    } else {
      assert (a + b)[1..] == a[1..] + b;
      assert (a + b)[0] == a[0];
      FilesOfConcat(a[1..], b);
      match a[0].1
      case FileEntry(f) =>
        assert FilesOf(a) == FilesOf(a[1..])[a[0].0 := f];
        assert FilesOf(a + b) == (FilesOf(b) + FilesOf(a[1..]))[a[0].0 := f];
        MergeUpdate(FilesOf(b), FilesOf(a[1..]), a[0].0, f);
      case TextEntry(_) =>
        assert FilesOf(a) == FilesOf(a[1..]);
    }
  }

  lemma MergeUpdate<V>(m: map<string, V>, n: map<string, V>, k: string, v: V)
    ensures (m + n)[k := v] == m + n[k := v]
  {
  }

  /** The form an optional entry contributes. */
  function OptionalForm(name: string, value: Option<string>): map<string, string> {
    if Truthy(value) then map[name := value.value] else map[]
  }

  /** The form of the three entries always sent. */
  function RequiredForm(modelAnswer: string, maxMarks: string): map<string, string> {
    map["max_marks" := maxMarks, "model_answer" := modelAnswer]
  }

  /** The three entries always sent, as the server reads them. */
  lemma RequiredAsRequest(file: Pdf.Upload, modelAnswer: string, maxMarks: string)
    ensures var head := [("student_file", FileEntry(file)), ("model_answer", TextEntry(modelAnswer)), ("max_marks", TextEntry(maxMarks))];
      FormOf(head) == RequiredForm(modelAnswer, maxMarks) && FilesOf(head) == map["student_file" := file]
  {
    var head := [("student_file", FileEntry(file)), ("model_answer", TextEntry(modelAnswer)), ("max_marks", TextEntry(maxMarks))];
    assert head[1..][1..][1..] == [];
    assert FormOf(head[1..][1..]) == map["max_marks" := maxMarks];
    assert FilesOf(head[1..][1..]) == map[];
    assert FilesOf(head[1..]) == map[];
  }

  /** An optional entry, as the server reads it. */
  lemma OptionalAsRequest(name: string, value: Option<string>)
    ensures FormOf(Optional(name, value)) == OptionalForm(name, value)
    ensures FilesOf(Optional(name, value)) == map[]
  {
  }

  /** The body `evaluateAnswer` builds, as the server's form and files. */
  lemma EvaluateFieldsAsRequest(file: Pdf.Upload, modelAnswer: string, maxMarks: string, question: string,
                                teacherId: Option<string>, studentId: Option<string>)
    ensures var entries := EvaluateFields(file, modelAnswer, maxMarks, question, teacherId, studentId);
      FilesOf(entries) == map["student_file" := file] &&
      FormOf(entries) == OptionalForm("student_id", studentId) + OptionalForm("teacher_id", teacherId) +
        OptionalForm("question", if question == [] then None else Some(question)) + RequiredForm(modelAnswer, maxMarks)
  {
    var head := [("student_file", FileEntry(file)), ("model_answer", TextEntry(modelAnswer)), ("max_marks", TextEntry(maxMarks))];
    var question' := if question == [] then None else Some(question);
    var q := Optional("question", question');
    var t := Optional("teacher_id", teacherId);
    var s := Optional("student_id", studentId);
    assert EvaluateFields(file, modelAnswer, maxMarks, question, teacherId, studentId) == head + q + t + s;
    RequiredAsRequest(file, modelAnswer, maxMarks);
    OptionalAsRequest("question", question');
    OptionalAsRequest("teacher_id", teacherId);
    OptionalAsRequest("student_id", studentId);
    ConcatFour(head, q, t, s);
  }

  /** Four pieces of a body, as the server reads them. */
  lemma ConcatFour(h: seq<(string, Entry)>, q: seq<(string, Entry)>, t: seq<(string, Entry)>, s: seq<(string, Entry)>)
    ensures FormOf(h + q + t + s) == FormOf(s) + FormOf(t) + FormOf(q) + FormOf(h)
    ensures FilesOf(h + q + t + s) == FilesOf(s) + FilesOf(t) + FilesOf(q) + FilesOf(h)
  {
    FormOfConcat(h + q + t, s);
    FormOfConcat(h + q, t);
    FormOfConcat(h, q);
    MergeAssoc(FormOf(s), FormOf(t), FormOf(q) + FormOf(h));
    MergeAssoc(FormOf(s) + FormOf(t), FormOf(q), FormOf(h));
    FilesOfConcat(h + q + t, s);
    FilesOfConcat(h + q, t);
    FilesOfConcat(h, q);
    MergeAssoc(FilesOf(s), FilesOf(t), FilesOf(q) + FilesOf(h));
    MergeAssoc(FilesOf(s) + FilesOf(t), FilesOf(q), FilesOf(h));
  }

  lemma MergeAssoc<V>(a: map<string, V>, b: map<string, V>, c: map<string, V>)
    ensures a + (b + c) == a + b + c
  {
  }

  /** The values the route looks up in the merged form. */
  lemma MergedFormLookups(modelAnswer: string, maxMarks: string, question: string,
                          teacherId: Option<string>, studentId: Option<string>)
    ensures var form := OptionalForm("student_id", studentId) + OptionalForm("teacher_id", teacherId) +
        OptionalForm("question", if question == [] then None else Some(question)) + RequiredForm(modelAnswer, maxMarks);
      Routes.FormGet(form, "model_answer") == Some(modelAnswer) &&
      Routes.FormGet(form, "max_marks") == Some(maxMarks) &&
      (if "question" in form then form["question"] else "") == question &&
      Routes.FormGet(form, "teacher_id") == (if Truthy(teacherId) then teacherId else None) &&
      Routes.FormGet(form, "student_id") == (if Truthy(studentId) then studentId else None)
  {
  }

  /** What the route makes of a form holding those values. */
  lemma RouteReadsForm(file: Pdf.Upload, form: map<string, string>, modelAnswer: string, maxMarks: string,
                       question: string, teacherId: Option<string>, studentId: Option<string>)
    requires Config.AllowedFile(file.filename) && modelAnswer != [] && ParseInt(maxMarks).Some?
    requires Routes.FormGet(form, "model_answer") == Some(modelAnswer)
    requires Routes.FormGet(form, "max_marks") == Some(maxMarks)
    requires (if "question" in form then form["question"] else "") == question
    requires Routes.FormGet(form, "teacher_id") == teacherId && Routes.FormGet(form, "student_id") == studentId
    ensures Routes.EvaluateRequestCheck(map["student_file" := file], form) ==
      Ok(Routes.EvaluateRequest(file, modelAnswer, ParseInt(maxMarks).value, question, teacherId, studentId))
  {
    assert maxMarks != [];
    assert form["max_marks"] == maxMarks;
  }

  /**
   * A body built from a file with an allowed name, a non-empty model answer and integer marks passes
   * every check of the `evaluate-answer` route, which then reads back exactly the arguments given:
   * an omitted question as `''`, an omitted id as absent.
   */
  lemma ClientRequestAccepted(file: Pdf.Upload, modelAnswer: string, maxMarks: string, question: string,
                              teacherId: Option<string>, studentId: Option<string>)
    requires Config.AllowedFile(file.filename) && modelAnswer != [] && ParseInt(maxMarks).Some?
    ensures var entries := EvaluateFields(file, modelAnswer, maxMarks, question, teacherId, studentId);
      Routes.EvaluateRequestCheck(FilesOf(entries), FormOf(entries)) ==
        Ok(Routes.EvaluateRequest(file, modelAnswer, ParseInt(maxMarks).value, question,
                                  if Truthy(teacherId) then teacherId else None,
                                  if Truthy(studentId) then studentId else None))
  {
    var entries := EvaluateFields(file, modelAnswer, maxMarks, question, teacherId, studentId);
    EvaluateFieldsAsRequest(file, modelAnswer, maxMarks, question, teacherId, studentId);
    MergedFormLookups(modelAnswer, maxMarks, question, teacherId, studentId);
    RouteReadsForm(file, FormOf(entries), modelAnswer, maxMarks, question,
                   if Truthy(teacherId) then teacherId else None, if Truthy(studentId) then studentId else None);
  }

  // ---------------------------------------------------------------- JSON bodies

  /** `createTeacher`'s body. */
  function CreateTeacherBody(name: string, email: string, subject: string): (r: Value)
    ensures r.Obj? && r.fields.Keys == {"name", "email", "subject"}
  {
    Obj(map["name" := Str(name), "email" := Str(email), "subject" := Str(subject)])
  }

  /** `createStudent`'s body: the roll number goes under `roll_number`, the class name under `class`. */
  function CreateStudentBody(name: string, email: string, rollNumber: string, className: string): (r: Value)
    ensures r.Obj? && r.fields.Keys == {"name", "email", "roll_number", "class"}
  {
    Obj(map["name" := Str(name), "email" := Str(email), "roll_number" := Str(rollNumber), "class" := Str(className)])
  }

  /** The route reads the teacher's subject from the key the client writes it under. */
  lemma CreateTeacherKeysRead(name: string, email: string, subject: string)
    ensures var d := CreateTeacherBody(name, email, subject).fields;
      Get(d, "name", Null) == Str(name) && Get(d, "email", Null) == Str(email) &&
      Routes.GetAll(d, Routes.ExtraKeys(Routes.Teacher)) == [Str(subject)]
  {
  }

  /** The route reads the roll number and class from the keys the client writes them under. */
  lemma CreateStudentKeysRead(name: string, email: string, rollNumber: string, className: string)
    ensures var d := CreateStudentBody(name, email, rollNumber, className).fields;
      Get(d, "name", Null) == Str(name) && Get(d, "email", Null) == Str(email) &&
      Routes.GetAll(d, Routes.ExtraKeys(Routes.Student)) == [Str(rollNumber), Str(className)]
  {
  }

  // ---------------------------------------------------------------- listing URLs

  /** The default `limit` of the student and teacher listings. */
  const DefaultListLimit: int := 10
  /** The default `limit` of the recent listing. */
  const DefaultRecentLimit: int := 20

  function StudentEvaluationsUrl(studentId: string, limit: int := DefaultListLimit): string {
    "/evaluations/student/" + studentId + "?limit=" + IntToString(limit)
  }

  function TeacherEvaluationsUrl(teacherId: string, limit: int := DefaultListLimit): string {
    "/evaluations/teacher/" + teacherId + "?limit=" + IntToString(limit)
  }

  function RecentEvaluationsUrl(limit: int := DefaultRecentLimit): string {
    "/evaluations/recent?limit=" + IntToString(limit)
  }

  /**
   * `request.args` as the route reads it. The fragment (from the first `#`) never leaves the
   * browser; the query is what follows the first `?`; it is cut into `&`-separated pairs,
   * empty pairs are skipped, and `get` answers a key's first value.
   */
  function QueryArgs(url: string): (r: map<string, string>)
    ensures '?' !in url ==> r == map[]
  {
    var sent := BeforeFirst(url, '#');
    match AfterFirst(sent, '?')
    case None => map[]
    case Some(query) => PairArgs(Split(query, '&'))
  }

  /** A pair's key: the text before its first `=`. */
  function PairKey(pair: string): string {
    BeforeFirst(pair, '=')
  }

  /** A pair's value: the text after its first `=`, empty when there is none. */
  function PairValue(pair: string): string {
    AfterFirst(pair, '=').GetOr("")
  }

  /** The arguments of the query's pairs, each key bound to the value of its first pair. */
  function PairArgs(pairs: seq<string>): map<string, string> {
    if pairs == [] then map[]
    else
      var rest := PairArgs(pairs[1..]);
      if pairs[0] == [] then rest else rest[PairKey(pairs[0]) := PairValue(pairs[0])]
  }

  /** A key is bound exactly when a non-empty pair carries it. */
  lemma {:induction false} PairArgsKeys(pairs: seq<string>, k: string)
    ensures k in PairArgs(pairs) <==> exists i :: 0 <= i < |pairs| && pairs[i] != [] && PairKey(pairs[i]) == k
  {
    if pairs != [] {
      PairArgsKeys(pairs[1..], k);
      if exists i :: 1 <= i < |pairs| && pairs[i] != [] && PairKey(pairs[i]) == k {
        var i :| 1 <= i < |pairs| && pairs[i] != [] && PairKey(pairs[i]) == k;
        assert pairs[1..][i - 1] == pairs[i];
      }
      if exists i :: 0 <= i < |pairs[1..]| && pairs[1..][i] != [] && PairKey(pairs[1..][i]) == k {
        var i :| 0 <= i < |pairs[1..]| && pairs[1..][i] != [] && PairKey(pairs[1..][i]) == k;
        assert pairs[i + 1] == pairs[1..][i];
      }
    }
  }

  /** The first non-empty pair with a key decides that key's value (`MultiDict.get`). */
  lemma {:induction false} PairArgsFirst(pairs: seq<string>, i: nat)
    requires i < |pairs| && pairs[i] != []
    requires forall j :: 0 <= j < i ==> pairs[j] == [] || PairKey(pairs[j]) != PairKey(pairs[i])
    ensures PairKey(pairs[i]) in PairArgs(pairs) && PairArgs(pairs)[PairKey(pairs[i])] == PairValue(pairs[i])
  {
    if i > 0 {
      forall j | 0 <= j < i - 1
        ensures pairs[1..][j] == [] || PairKey(pairs[1..][j]) != PairKey(pairs[1..][i - 1])
      {
        assert pairs[1..][j] == pairs[j + 1];
      }
      PairArgsFirst(pairs[1..], i - 1);
    }
  }

  /** The decimal form of an integer holds only digits and a sign. */
  lemma IntToStringChars(i: int)
    ensures '?' !in IntToString(i) && '=' !in IntToString(i)
    ensures '#' !in IntToString(i) && '&' !in IntToString(i)
  {
    if i < 0 {
      var d := NatToString(-i);
      assert IntToString(i) == "-" + d;
      assert forall j :: 0 <= j < |d| ==> IsDigit(d[j]);
    } else {
      var d := NatToString(i);
      assert forall j :: 0 <= j < |d| ==> IsDigit(d[j]);
    }
  }

  /**
   * After a path free of `?` and `#`, a trailing `?limit=n` is read back by the route as the
   * limit `n`.
   */
  lemma LimitQueryRoundTrip(prefix: string, limit: int, default: int)
    requires '?' !in prefix && '#' !in prefix
    ensures Routes.LimitArg(QueryArgs(prefix + "?limit=" + IntToString(limit)), default) == limit
  {
    IntToStringChars(limit);
    QueryOfLimit(prefix, IntToString(limit));
    Routes.LimitArgRoundTrip(limit, default);
  }

  /** On a path free of `?` and `#`, the query is everything after the `?`. */
  lemma {:induction false} QueryArgsAfterPath(path: string, query: string)
    requires '?' !in path && '#' !in path && '#' !in query
    ensures QueryArgs(path + ['?'] + query) == PairArgs(Split(query, '&'))
  {
    var url := path + ['?'] + query;
    assert '#' !in url by {
      assert forall i :: 0 <= i < |url| ==> url[i] == if i < |path| then path[i] else if i == |path| then '?' else query[i - |path| - 1];
    }
    BeforeFirstWhole(url, '#');
    CutAtFirst(path, '?', query);
  }

  /** A query made of one `key=value` pair binds just that key. */
  lemma {:induction false} SinglePairArgs(key: string, value: string)
    requires '=' !in key && '&' !in key && '&' !in value
    ensures PairArgs(Split(key + ['='] + value, '&')) == map[key := value]
  {
    var pair := key + ['='] + value;
    assert '&' !in pair by {
      assert forall i :: 0 <= i < |pair| ==> pair[i] == if i < |key| then key[i] else if i == |key| then '=' else value[i - |key| - 1];
    }
    SplitNoSeparator(pair, '&');
    CutAtFirst(key, '=', value);
    assert [pair][1..] == [];
  }

  /** A value free of `#` and `&` after `?limit=` on such a path is read back under `limit`. */
  lemma QueryOfLimit(prefix: string, n: string)
    requires '?' !in prefix && '#' !in prefix && '#' !in n && '&' !in n
    ensures QueryArgs(prefix + "?limit=" + n) == map["limit" := n]
  {
    var pair := "limit" + ['='] + n;
    assert prefix + "?limit=" + n == prefix + ['?'] + pair;
    assert '#' !in pair by {
      assert forall i :: 0 <= i < |pair| ==> pair[i] == if i < 5 then "limit"[i] else if i == 5 then '=' else n[i - 6];
    }
    QueryArgsAfterPath(prefix, pair);
    SinglePairArgs("limit", n);
  }

  /**
   * An id holding `?` moves the query: for the id `x?a` the route sees the student `x` and
   * the single argument `a?limit`, so the default limit applies whatever limit was asked for.
   */
  lemma IdWithQuestionMarkLosesLimit(x: string, a: string, limit: int)
    requires '?' !in x && '#' !in x && '#' !in a && '=' !in a && '&' !in a
    ensures QueryArgs(StudentEvaluationsUrl(x + "?" + a, limit)) == map[a + "?limit" := IntToString(limit)]
    ensures Routes.LimitArg(QueryArgs(StudentEvaluationsUrl(x + "?" + a, limit)), ES.StudentLimit) == ES.StudentLimit
  {
    ListingPathsPlain(x);
    IntToStringChars(limit);
    var path, key, n := "/evaluations/student/" + x, a + "?limit", IntToString(limit);
    assert StudentEvaluationsUrl(x + "?" + a, limit) == path + ['?'] + (key + ['='] + n);
    assert '=' !in "?limit" && '&' !in "?limit" && '#' !in "?limit";
    assert '#' !in key + ['='] + n;
    QueryArgsAfterPath(path, key + ['='] + n);
    SinglePairArgs(key, n);
    assert |key| > 5;
  }

  /** The listing paths hold no `?` or `#` of their own. */
  lemma ListingPathsPlain(id: string)
    requires '?' !in id && '#' !in id
    ensures '?' !in "/evaluations/student/" + id && '#' !in "/evaluations/student/" + id
    ensures '?' !in "/evaluations/teacher/" + id && '#' !in "/evaluations/teacher/" + id
    ensures '?' !in "/evaluations/recent" && '#' !in "/evaluations/recent"
  {
  }

  /** Called without a limit, each listing asks for the store's default (for an id free of `?` and `#`). */
  lemma DefaultLimitsReachRoutes(id: string)
    requires '?' !in id && '#' !in id
    ensures Routes.LimitArg(QueryArgs(StudentEvaluationsUrl(id)), ES.StudentLimit) == ES.StudentLimit
    ensures Routes.LimitArg(QueryArgs(TeacherEvaluationsUrl(id)), ES.TeacherLimit) == ES.TeacherLimit
    ensures Routes.LimitArg(QueryArgs(RecentEvaluationsUrl()), ES.RecentLimit) == ES.RecentLimit
  {
    ExplicitLimitReachesRoute(id, DefaultListLimit, ES.StudentLimit);
    ExplicitLimitReachesRoute(id, DefaultListLimit, ES.TeacherLimit);
    ExplicitLimitReachesRoute(id, DefaultRecentLimit, ES.RecentLimit);
  }

  /** Any limit given is the limit the route applies, for an id free of `?` and `#`. */
  lemma ExplicitLimitReachesRoute(id: string, limit: int, default: int)
    requires '?' !in id && '#' !in id
    ensures Routes.LimitArg(QueryArgs(StudentEvaluationsUrl(id, limit)), default) == limit
    ensures Routes.LimitArg(QueryArgs(TeacherEvaluationsUrl(id, limit)), default) == limit
    ensures Routes.LimitArg(QueryArgs(RecentEvaluationsUrl(limit)), default) == limit
  {
    ListingPathsPlain(id);
    var n := IntToString(limit);
    var student, teacher, recent := "/evaluations/student/" + id, "/evaluations/teacher/" + id, "/evaluations/recent";
    assert StudentEvaluationsUrl(id, limit) == student + "?limit=" + n;
    assert TeacherEvaluationsUrl(id, limit) == teacher + "?limit=" + n;
    assert RecentEvaluationsUrl(limit) == recent + "?limit=" + n;
    LimitQueryRoundTrip(student, limit, default);
    LimitQueryRoundTrip(teacher, limit, default);
    LimitQueryRoundTrip(recent, limit, default);
  }
}
