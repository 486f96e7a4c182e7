/**
 * The evaluation wizard page (`pages/Evaluate.jsx`): a step counter with the draft of one
 * evaluation (model answer text, student file, maximum marks, question, selected teacher and
 * student), the teacher and student lists the selects offer, inline add-forms, the last
 * result and an error message. Each event handler changes that state in place. Requests
 * are not performed: each handler receives its request's outcome as an input and returns what
 * it sent. On success the page navigates to the results page, which is returned as well;
 * this page itself never shows step 3.
 */
module EvaluatePage {
  import opened Wrappers
  import opened Text
  import opened Json
  import opened Frontend
  import Seqs
  import Config
  import Pdf
  import Api
  import Routes
  import Management

  const NoStudentFile := "Please upload a student answer file"
  const NoMaxMarks := "Please enter maximum marks"
  const NoTeacher := "Please select a teacher"
  const NoStudent := "Please select a student"
  const NoModelAnswer := "Please enter model answer"
  const FieldsRequired := "Name and email are required"
  /**
   * The engine's `TypeError` message when a handler reads `_id` of a missing entity, and when it
   * sets `max_marks` on a result that is not an object; the handlers show the message as it is.
   */
  const ReadIdFailed := "Cannot read properties of undefined (reading '_id')"
  const SetMaxMarksFailed := "Cannot create property 'max_marks'"

  /** Every piece of the page's state. */
  datatype Page = Page(
    step: int,
    modelAnswerText: string,
    studentFile: Option<Pdf.Upload>,
    maxMarks: string,
    question: string,
    teachers: seq<Value>,
    students: seq<Value>,
    selectedTeacher: string,
    selectedStudent: string,
    error: string,
    results: Option<Value>,
    showNewTeacher: bool,
    showNewStudent: bool,
    newTeacher: TeacherForm,
    newStudent: StudentForm)

  const Initial := Page(1, "", None, "", "", [], [], "", "", "", None, false, false, EmptyTeacherForm, EmptyStudentForm)

  /** The steps this page can be in: the model answer (1) and the student's answer (2). */
  predicate Reachable(p: Page) {
    p.step == 1 || p.step == 2
  }

  // ---------------------------------------------------------------- transitions

  /** `loadUsers`: both lists from the two responses; a failure is only logged. */
  function LoadUsersStep(p: Page, fetched: Result<(Value, Value), Failure>): Page {
    match fetched
    case Ok((teachersRes, studentsRes)) =>
      p.(teachers := ListMember(teachersRes, "teachers"), students := ListMember(studentsRes, "students"))
    case Err(_) => p
  }

  /** `handleModelAnswerUpload`: nothing without a file; otherwise the extracted text and step 2, or an error. */
  function UploadStep(p: Page, file: Option<Pdf.Upload>, extracted: Result<string, Failure>): Page {
    if file.None? then p
    else match extracted
      case Ok(text) => p.(error := "", modelAnswerText := text, step := 2)
      case Err(f) => p.(error := ErrorText(f))
  }

  /** The "Next" button, enabled only when there is model answer text. */
  function NextStep(p: Page): Page {
    if p.modelAnswerText == [] then p else p.(step := 2)
  }

  /** The "Back" button. */
  function BackStep(p: Page): Page {
    p.(step := 1)
  }

  /** Choosing a student file: stored, and the error cleared, only when a file was chosen. */
  function ChooseFileStep(p: Page, file: Option<Pdf.Upload>): Page {
    if file.None? then p else p.(studentFile := file, error := "")
  }

  /**
   * A created teacher joins the list and is selected. Reading the id of a missing teacher throws,
   * after the list was already extended.
   */
  function AddedTeacher(p: Page, teacher: Value): Page {
    if teacher.Null? then p.(teachers := p.teachers + [teacher], error := ReadIdFailed)
    else p.(teachers := p.teachers + [teacher], selectedTeacher := IdText(teacher), showNewTeacher := false, newTeacher := EmptyTeacherForm)
  }

  /** `handleAddTeacher`: the page afterwards and the create request sent, if any. */
  function AddTeacherStep(p: Page, created: Result<Value, Failure>): (Page, Option<Value>) {
    var form := p.newTeacher;
    if form.name == [] || form.email == [] then (p.(error := FieldsRequired), None)
    else
      var sent := Some(Api.CreateTeacherBody(form.name, form.email, form.subject));
      match created
      case Ok(response) =>
        (AddedTeacher(p, Member(response, "teacher")), sent)
      case Err(f) => (p.(error := ErrorText(f)), sent)
  }

  /**
   * A created student joins the list and is selected. Reading the id of a missing student throws,
   * after the list was already extended.
   */
  function AddedStudent(p: Page, student: Value): Page {
    if student.Null? then p.(students := p.students + [student], error := ReadIdFailed)
    else p.(students := p.students + [student], selectedStudent := IdText(student), showNewStudent := false, newStudent := EmptyStudentForm)
  }

  /** `handleAddStudent`: only the name and email are required here. */
  function AddStudentStep(p: Page, created: Result<Value, Failure>): (Page, Option<Value>) {
    var form := p.newStudent;
    if form.name == [] || form.email == [] then (p.(error := FieldsRequired), None)
    else
      var sent := Some(Api.CreateStudentBody(form.name, form.email, form.rollNumber, form.className));
      match created
      case Ok(response) =>
        (AddedStudent(p, Member(response, "student")), sent)
      case Err(f) => (p.(error := ErrorText(f)), sent)
  }

  /** `handleEvaluate`'s checks, in order. */
  function EvaluateChecks(p: Page): seq<Seqs.Check<string>> {
    [Seqs.Check(p.studentFile.Some?, NoStudentFile),
     Seqs.Check(p.maxMarks != [], NoMaxMarks),
     Seqs.Check(p.selectedTeacher != [], NoTeacher),
     Seqs.Check(p.selectedStudent != [], NoStudent),
     Seqs.Check(p.modelAnswerText != [], NoModelAnswer)]
  }

  /** The first failing check's message, as the handler's chain of early returns finds it. */
  function EvaluateRefusal(p: Page): (r: Option<string>)
    ensures r.None? ==> p.studentFile.Some?
  {
    if p.studentFile.None? then Some(NoStudentFile)
    else if p.maxMarks == [] then Some(NoMaxMarks)
    else if p.selectedTeacher == [] then Some(NoTeacher)
    else if p.selectedStudent == [] then Some(NoStudent)
    else if p.modelAnswerText == [] then Some(NoModelAnswer)
    else None
  }

  /** The six entries the handler appends, question and ids included even when empty. */
  function SubmittedEntries(p: Page): seq<(string, Api.Entry)>
    requires p.studentFile.Some?
  {
    [("student_file", Api.FileEntry(p.studentFile.value)), ("model_answer", Api.TextEntry(p.modelAnswerText)),
     ("max_marks", Api.TextEntry(p.maxMarks)), ("question", Api.TextEntry(p.question)),
     ("teacher_id", Api.TextEntry(p.selectedTeacher)), ("student_id", Api.TextEntry(p.selectedStudent))]
  }

  /** `response.evaluation || response`: the nested evaluation when the server sent one. */
  function Unwrapped(response: Value): Value {
    if JsTruthy(Member(response, "evaluation")) then Member(response, "evaluation") else response
  }

  /**
   * `evaluationData.max_marks = maxMarks`: an object gains the client's text; on an array the
   * property is not part of its JSON and it is left as it is; on anything else the assignment throws.
   */
  function WithMaxMarks(data: Value, maxMarks: string): (r: Result<Value, string>)
    ensures r.Ok? <==> data.Obj? || data.Arr?
    ensures r.Ok? && data.Obj? ==>
      && r.value.Obj? && r.value.fields.Keys == data.fields.Keys + {"max_marks"}
      && Member(r.value, "max_marks") == Str(maxMarks)
      && forall k :: k in data.fields && k != "max_marks" ==> r.value.fields[k] == data.fields[k]
  {
    match data
    case Obj(fields) => Ok(Obj(fields["max_marks" := Str(maxMarks)]))
    case Arr(_) => Ok(data)
    case _ => Err(SetMaxMarksFailed)
  }

  /** What `handleEvaluate` does besides changing the page: the body it posted and the result it navigated with. */
  datatype Effects = Effects(sent: Option<seq<(string, Api.Entry)>>, navigatedWith: Option<Value>)

  /** `handleEvaluate`. */
  function EvaluateStep(p: Page, evaluated: Result<Value, Failure>): (Page, Effects) {
    match EvaluateRefusal(p)
    case Some(message) => (p.(error := message), Effects(None, None))
    case None =>
      var sent := Some(SubmittedEntries(p));
      match evaluated
      case Ok(response) =>
        (match WithMaxMarks(Unwrapped(response), p.maxMarks)
         case Ok(data) => (p.(error := "", results := Some(data)), Effects(sent, Some(data)))
         case Err(message) => (p.(error := message), Effects(sent, None)))
      case Err(f) => (p.(error := ErrorText(f)), Effects(sent, None))
  }

  /** The "Evaluate Another" button. */
  function EvaluateAnotherStep(p: Page): Page {
    p.(step := 1, modelAnswerText := "", studentFile := None, maxMarks := "", question := "", results := None)
  }

  // ---------------------------------------------------------------- properties

  /** The handler refuses with the first failing check's message, and submits exactly when all pass. */
  lemma EvaluateLadderOrder(p: Page)
    ensures EvaluateRefusal(p) == Seqs.FirstFailure(EvaluateChecks(p))
  {
    var checks := EvaluateChecks(p);
    if p.studentFile.None? {
      Seqs.FirstFailureAt(checks, 0);
    } else if p.maxMarks == [] {
      Seqs.FirstFailureAt(checks, 1);
    } else if p.selectedTeacher == [] {
      Seqs.FirstFailureAt(checks, 2);
    } else if p.selectedStudent == [] {
      Seqs.FirstFailureAt(checks, 3);
    } else if p.modelAnswerText == [] {
      Seqs.FirstFailureAt(checks, 4);
    }
  }

  /** A refused evaluation sends nothing and changes only the error. */
  lemma RefusedEvaluationSendsNothing(p: Page, evaluated: Result<Value, Failure>)
    requires EvaluateRefusal(p).Some?
    ensures var (q, effects) := EvaluateStep(p, evaluated);
      effects == Effects(None, None) && q == p.(error := EvaluateRefusal(p).value) && q.error != []
  {
  }

  /** A submitted request always carries exactly these six names, in this order. */
  lemma SubmittedNames(p: Page)
    requires p.studentFile.Some?
    ensures Api.Names(SubmittedEntries(p)) == ["student_file", "model_answer", "max_marks", "question", "teacher_id", "student_id"]
  {
  }

  /**
   * A submitted request whose file has an allowed name and whose marks are an integer passes the
   * `evaluate-answer` route's checks, which read back the draft with both ids present.
   */
  lemma SubmittedRequestAccepted(p: Page)
    requires EvaluateRefusal(p).None?
    requires Config.AllowedFile(p.studentFile.value.filename) && ParseInt(p.maxMarks).Some?
    ensures var e := SubmittedEntries(p);
      Routes.EvaluateRequestCheck(Api.FilesOf(e), Api.FormOf(e)) ==
        Ok(Routes.EvaluateRequest(p.studentFile.value, p.modelAnswerText, ParseInt(p.maxMarks).value, p.question,
                                  Some(p.selectedTeacher), Some(p.selectedStudent)))
  {
    EntriesAccepted(p.studentFile.value, p.modelAnswerText, p.maxMarks, p.question, p.selectedTeacher, p.selectedStudent);
  }

  /** The six entries of a submitted request, given field by field, pass the route's checks. */
  lemma EntriesAccepted(file: Pdf.Upload, modelAnswer: string, maxMarks: string, question: string,
                        teacherId: string, studentId: string)
    requires Config.AllowedFile(file.filename) && ParseInt(maxMarks).Some?
    requires modelAnswer != [] && teacherId != [] && studentId != []
    ensures var e := [("student_file", Api.FileEntry(file)), ("model_answer", Api.TextEntry(modelAnswer)),
        ("max_marks", Api.TextEntry(maxMarks)), ("question", Api.TextEntry(question)),
        ("teacher_id", Api.TextEntry(teacherId)), ("student_id", Api.TextEntry(studentId))];
      Routes.EvaluateRequestCheck(Api.FilesOf(e), Api.FormOf(e)) ==
        Ok(Routes.EvaluateRequest(file, modelAnswer, ParseInt(maxMarks).value, question, Some(teacherId), Some(studentId)))
  {
    var head := [("student_file", Api.FileEntry(file)), ("model_answer", Api.TextEntry(modelAnswer)),
      ("max_marks", Api.TextEntry(maxMarks))];
    var rest := [("question", Api.TextEntry(question))] + [("teacher_id", Api.TextEntry(teacherId))] +
      [("student_id", Api.TextEntry(studentId))];
    var e := [("student_file", Api.FileEntry(file)), ("model_answer", Api.TextEntry(modelAnswer)),
        ("max_marks", Api.TextEntry(maxMarks)), ("question", Api.TextEntry(question)),
        ("teacher_id", Api.TextEntry(teacherId)), ("student_id", Api.TextEntry(studentId))];
    assert e == head + rest;
    Api.RequiredAsRequest(file, modelAnswer, maxMarks);
    SubmittedForm(head, question, teacherId, studentId);
    var form := Api.OptionalForm("student_id", Some(studentId)) + Api.OptionalForm("teacher_id", Some(teacherId)) +
      map["question" := question] + Api.RequiredForm(modelAnswer, maxMarks);
    assert Api.FilesOf(e) == map["student_file" := file] && Api.FormOf(e) == form;
    SubmittedLookups(modelAnswer, maxMarks, question, teacherId, studentId);
    Api.RouteReadsForm(file, form, modelAnswer, maxMarks, question, Some(teacherId), Some(studentId));
  }

  /** The values the route looks up in the form of a submitted request. */
  lemma SubmittedLookups(modelAnswer: string, maxMarks: string, question: string, teacherId: string, studentId: string)
    requires teacherId != [] && studentId != []
    ensures var form := Api.OptionalForm("student_id", Some(studentId)) + Api.OptionalForm("teacher_id", Some(teacherId)) +
        map["question" := question] + Api.RequiredForm(modelAnswer, maxMarks);
      Routes.FormGet(form, "model_answer") == Some(modelAnswer) &&
      Routes.FormGet(form, "max_marks") == Some(maxMarks) &&
      (if "question" in form then form["question"] else "") == question &&
      Routes.FormGet(form, "teacher_id") == Some(teacherId) &&
      Routes.FormGet(form, "student_id") == Some(studentId)
  {
  }

  /** The last three entries, always present, as the server reads them. */
  lemma SubmittedForm(head: seq<(string, Api.Entry)>, question: string, teacherId: string, studentId: string)
    requires teacherId != [] && studentId != []
    ensures var e := head + ([("question", Api.TextEntry(question))] + [("teacher_id", Api.TextEntry(teacherId))] +
        [("student_id", Api.TextEntry(studentId))]);
      Api.FilesOf(e) == Api.FilesOf(head) &&
      Api.FormOf(e) == Api.OptionalForm("student_id", Some(studentId)) + Api.OptionalForm("teacher_id", Some(teacherId)) +
        map["question" := question] + Api.FormOf(head)
  {
    var q := [("question", Api.TextEntry(question))];
    var t := [("teacher_id", Api.TextEntry(teacherId))];
    var s := [("student_id", Api.TextEntry(studentId))];
    assert head + (q + t + s) == head + q + t + s;
    Api.ConcatFour(head, q, t, s);
    assert Api.FormOf(q[1..]) == map[];
    assert Api.FormOf(t[1..]) == map[];
    assert Api.FormOf(s[1..]) == map[];
    assert Api.FilesOf(q[1..]) == map[] && Api.FilesOf(t[1..]) == map[] && Api.FilesOf(s[1..]) == map[];
  }

  /** On success the stored and forwarded result carries the client's maximum marks. */
  lemma SuccessStoresResult(p: Page, response: Value)
    requires EvaluateRefusal(p).None? && Unwrapped(response).Obj?
    ensures var (q, effects) := EvaluateStep(p, Ok(response));
      q.results.Some? && effects.navigatedWith == q.results && q.error == "" && q.step == p.step &&
      Member(q.results.value, "max_marks") == Str(p.maxMarks) &&
      q.results.value.fields.Keys == Unwrapped(response).fields.Keys + {"max_marks"}
  {
  }

  /** A result the handler cannot annotate is reported as an error; nothing is stored or forwarded. */
  lemma PrimitiveResultFails(p: Page, response: Value)
    requires EvaluateRefusal(p).None? && !Unwrapped(response).Obj? && !Unwrapped(response).Arr?
    ensures var (q, effects) := EvaluateStep(p, Ok(response));
      q == p.(error := SetMaxMarksFailed) && effects.navigatedWith.None? && effects.sent.Some?
  {
  }

  /** On failure the error is the server's error text, else the failure's message, and nothing else changes. */
  lemma FailedEvaluationKeepsDraft(p: Page, f: Failure)
    requires EvaluateRefusal(p).None?
    ensures var (q, effects) := EvaluateStep(p, Err(f));
      q == p.(error := ErrorText(f)) && effects == Effects(Some(SubmittedEntries(p)), None)
  {
  }

  /** The model answer upload: no file is a no-op, success moves to step 2, failure keeps the step. */
  lemma UploadOutcomes(p: Page, file: Pdf.Upload, text: string, f: Failure)
    ensures UploadStep(p, None, Ok(text)) == p && UploadStep(p, None, Err(f)) == p
    ensures var q := UploadStep(p, Some(file), Ok(text)); q.modelAnswerText == text && q.step == 2 && q.error == ""
    ensures var q := UploadStep(p, Some(file), Err(f)); q.step == p.step && q.modelAnswerText == p.modelAnswerText && q.error == ErrorText(f)
  {
  }

  /** The pasted-text path reaches step 2 only with model answer text, and changes nothing else. */
  lemma NextNeedsModelAnswer(p: Page)
    ensures NextStep(p).step == 2 <==> p.modelAnswerText != [] || p.step == 2
    ensures NextStep(p).(step := p.step) == p
  {
  }

  /** Back returns to step 1 keeping every draft field. */
  lemma BackKeepsDraft(p: Page)
    ensures var q := BackStep(p);
      q.step == 1 && q.modelAnswerText == p.modelAnswerText && q.studentFile == p.studentFile &&
      q.maxMarks == p.maxMarks && q.question == p.question &&
      q.selectedTeacher == p.selectedTeacher && q.selectedStudent == p.selectedStudent
  {
  }

  /** "Evaluate Another" clears the draft and the result but keeps the selections, the lists and the error. */
  lemma EvaluateAnotherKeepsSelection(p: Page)
    ensures var q := EvaluateAnotherStep(p);
      q.step == 1 && q.modelAnswerText == "" && q.studentFile.None? && q.maxMarks == "" && q.question == "" &&
      q.results.None? &&
      q.selectedTeacher == p.selectedTeacher && q.selectedStudent == p.selectedStudent &&
      q.teachers == p.teachers && q.students == p.students && q.error == p.error
  {
  }

  /** A successful inline add appends the new entity and selects it. */
  lemma InlineAddSelects(p: Page, response: Value)
    requires p.newTeacher.name != [] && p.newTeacher.email != []
    requires p.newStudent.name != [] && p.newStudent.email != []
    requires !Member(response, "teacher").Null? && !Member(response, "student").Null?
    ensures var (q, sent) := AddTeacherStep(p, Ok(response));
      sent.Some? && q.teachers == p.teachers + [Member(response, "teacher")] &&
      q.selectedTeacher == IdText(Member(response, "teacher")) && q.newTeacher == EmptyTeacherForm && !q.showNewTeacher
    ensures var (q, sent) := AddStudentStep(p, Ok(response));
      sent.Some? && q.students == p.students + [Member(response, "student")] &&
      q.selectedStudent == IdText(Member(response, "student")) && q.newStudent == EmptyStudentForm && !q.showNewStudent
  {
  }

  /** A response without the created entity still extends the list, but selects nothing and keeps the form open. */
  lemma InlineAddWithoutEntity(p: Page, response: Value)
    requires p.newTeacher.name != [] && p.newTeacher.email != []
    requires Member(response, "teacher").Null?
    ensures var (q, sent) := AddTeacherStep(p, Ok(response));
      q == p.(teachers := p.teachers + [Null], error := ReadIdFailed) && sent.Some?
  {
  }

  /** An inline add without a name or an email sets an error and sends nothing. */
  lemma InlineAddRequiresNameAndEmail(p: Page, created: Result<Value, Failure>)
    ensures var (q, sent) := AddTeacherStep(p, created);
      sent.None? <==> p.newTeacher.name == [] || p.newTeacher.email == []
    ensures var (q, sent) := AddStudentStep(p, created);
      sent.None? <==> p.newStudent.name == [] || p.newStudent.email == []
  {
  }

  /** The inline student form accepts an empty roll number, which the management page refuses. */
  lemma InlineStudentLaxerThanManagement(created: Result<Value, Failure>)
    ensures var form := StudentForm("Asha", "asha@example.com", "", "");
      AddStudentStep(Initial.(newStudent := form), created).1.Some? &&
      Management.AddStudentStep(Management.Initial.(newStudent := form), created).1.None?
  {
  }

  /** No handler of this page leaves steps 1 and 2: the step-3 view is never shown. */
  lemma StepStaysReachable(p: Page, file: Option<Pdf.Upload>, extracted: Result<string, Failure>,
                           fetched: Result<(Value, Value), Failure>)
    requires Reachable(p)
    ensures Reachable(Initial)
    ensures Reachable(LoadUsersStep(p, fetched)) && Reachable(UploadStep(p, file, extracted))
    ensures Reachable(NextStep(p)) && Reachable(BackStep(p)) && Reachable(ChooseFileStep(p, file))
    ensures Reachable(EvaluateAnotherStep(p))
  {
  }

  /** Adding a teacher or a student, and evaluating, never change the step. */
  lemma RequestsKeepStep(p: Page, created: Result<Value, Failure>, evaluated: Result<Value, Failure>)
    ensures AddTeacherStep(p, created).0.step == p.step && AddStudentStep(p, created).0.step == p.step
    ensures EvaluateStep(p, evaluated).0.step == p.step
  {
  }

  // ---------------------------------------------------------------- the component

  class EvaluatePage {
    var step: int
    var modelAnswerText: string
    var studentFile: Option<Pdf.Upload>
    var maxMarks: string
    var question: string
    var teachers: seq<Value>
    var students: seq<Value>
    var selectedTeacher: string
    var selectedStudent: string
    var error: string
    var results: Option<Value>
    var showNewTeacher: bool
    var showNewStudent: bool
    var newTeacher: TeacherForm
    var newStudent: StudentForm

    function State(): Page
      reads this
    {
      Page(step, modelAnswerText, studentFile, maxMarks, question, teachers, students, selectedTeacher,
           selectedStudent, error, results, showNewTeacher, showNewStudent, newTeacher, newStudent)
    }

    constructor()
      ensures State() == Initial
    {
      step, modelAnswerText, studentFile, maxMarks, question := 1, "", None, "", "";
      teachers, students, selectedTeacher, selectedStudent := [], [], "", "";
      error, results := "", None;
      showNewTeacher, showNewStudent, newTeacher, newStudent := false, false, EmptyTeacherForm, EmptyStudentForm;
    }

    method LoadUsers(fetched: Result<(Value, Value), Failure>)
      modifies this
      ensures State() == LoadUsersStep(old(State()), fetched)
    {
      if fetched.Ok? {
        var (teachersRes, studentsRes) := fetched.value;
        teachers := ListMember(teachersRes, "teachers");
        students := ListMember(studentsRes, "students");
      }
    }

    method HandleModelAnswerUpload(file: Option<Pdf.Upload>, extracted: Result<string, Failure>)
      modifies this
      ensures State() == UploadStep(old(State()), file, extracted)
    {
      if file.None? {
        return;
      }
      error := "";
      match extracted {
        case Ok(text) =>
          modelAnswerText := text;
          step := 2;
        case Err(f) =>
          error := ErrorText(f);
      }
    }

    method Next()
      modifies this
      ensures State() == NextStep(old(State()))
    {
      if modelAnswerText != [] {
        step := 2;
      }
    }

    method Back()
      modifies this
      ensures State() == BackStep(old(State()))
    {
      step := 1;
    }

    method ChooseStudentFile(file: Option<Pdf.Upload>)
      modifies this
      ensures State() == ChooseFileStep(old(State()), file)
    {
      if file.Some? {
        studentFile := file;
        error := "";
      }
    }

    method HandleAddTeacher(created: Result<Value, Failure>) returns (sent: Option<Value>)
      modifies this
      ensures (State(), sent) == AddTeacherStep(old(State()), created)
    {
      if newTeacher.name == [] || newTeacher.email == [] {
        error := FieldsRequired;
        return None;
      }
      sent := Some(Api.CreateTeacherBody(newTeacher.name, newTeacher.email, newTeacher.subject));
      match created {
        case Ok(response) =>
          ghost var before := State();
          var teacher := Member(response, "teacher");
          teachers := teachers + [teacher];
          if teacher.Null? {
            error := ReadIdFailed;
          } else {
            SelectCreatedTeacher(teacher);
          }
          assert State() == AddedTeacher(before, teacher);
        case Err(f) =>
          error := ErrorText(f);
      }
    }

    /** The setters that follow a successful create: select the new teacher, hide and clear the form. */
    method SelectCreatedTeacher(teacher: Value)
      modifies this
      ensures State() == old(State()).(selectedTeacher := IdText(teacher), showNewTeacher := false, newTeacher := EmptyTeacherForm)
    {
      selectedTeacher, showNewTeacher, newTeacher := IdText(teacher), false, EmptyTeacherForm;
    }

    method HandleAddStudent(created: Result<Value, Failure>) returns (sent: Option<Value>)
      modifies this
      ensures (State(), sent) == AddStudentStep(old(State()), created)
    {
      if newStudent.name == [] || newStudent.email == [] {
        error := FieldsRequired;
        return None;
      }
      sent := Some(Api.CreateStudentBody(newStudent.name, newStudent.email, newStudent.rollNumber, newStudent.className));
      match created {
        case Ok(response) =>
          ghost var before := State();
          var student := Member(response, "student");
          students := students + [student];
          if student.Null? {
            error := ReadIdFailed;
          } else {
            SelectCreatedStudent(student);
          }
          assert State() == AddedStudent(before, student);
        case Err(f) =>
          error := ErrorText(f);
      }
    }

    /** The setters that follow a successful create: select the new student, hide and clear the form. */
    method SelectCreatedStudent(student: Value)
      modifies this
      ensures State() == old(State()).(selectedStudent := IdText(student), showNewStudent := false, newStudent := EmptyStudentForm)
    {
      selectedStudent, showNewStudent, newStudent := IdText(student), false, EmptyStudentForm;
    }

    method HandleEvaluate(evaluated: Result<Value, Failure>) returns (effects: Effects)
      modifies this
      ensures (State(), effects) == EvaluateStep(old(State()), evaluated)
    {
      var refusal := EvaluateRefusal(State());
      if refusal.Some? {
        error := refusal.value;
        return Effects(None, None);
      }
      error := "";
      var body := BuildFormData();
      var sent := Api.EvaluateAnswer(Api.GivenForm(body), "", "");
      effects := Effects(Some(sent.entries), None);
      match evaluated {
        case Ok(response) =>
          var annotated := WithMaxMarks(Unwrapped(response), maxMarks);
          if annotated.Err? {
            error := annotated.error;
            return;
          }
          results := Some(annotated.value);
          effects := effects.(navigatedWith := Some(annotated.value));
        case Err(f) =>
          error := ErrorText(f);
      }
    }

    /** The six appends of `handleEvaluate`. */
    method BuildFormData() returns (formData: Api.FormData)
      requires studentFile.Some?
      ensures fresh(formData) && formData.entries == SubmittedEntries(State())
    {
      formData := new Api.FormData();
      formData.Append("student_file", Api.FileEntry(studentFile.value));
      formData.Append("model_answer", Api.TextEntry(modelAnswerText));
      formData.Append("max_marks", Api.TextEntry(maxMarks));
      formData.Append("question", Api.TextEntry(question));
      formData.Append("teacher_id", Api.TextEntry(selectedTeacher));
      formData.Append("student_id", Api.TextEntry(selectedStudent));
    }

    method EvaluateAnother()
      modifies this
      ensures State() == EvaluateAnotherStep(old(State()))
    {
      ghost var before := State();
      step := 1;
      ClearDraft();
      results := None;
      assert State() == before.(step := 1).(modelAnswerText := "", studentFile := None, maxMarks := "", question := "")
        .(results := None);
    }

    /** The setters "Evaluate Another" calls between the step and the result. */
    method ClearDraft()
      modifies this
      ensures State() == old(State()).(modelAnswerText := "", studentFile := None, maxMarks := "", question := "")
    {
      modelAnswerText, studentFile, maxMarks, question := "", None, "", "";
    }
  }
}
