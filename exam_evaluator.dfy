/**
 * The older single-page evaluator (`components/ExamEvaluator.jsx`): the same draft as the wizard
 * page, plus the model answer file and a loading flag, with optional teacher and student and
 * prefixed error messages. Results are shown in place at step 3. The model answer upload and the
 * evaluation are split at their `await`: the start raises the loading flag and returns the request
 * sent, the finish takes the request's outcome as an input. Other handlers may run in between, as
 * nothing in the component prevents it. Adding a teacher or a student is modelled as one step.
 */
module ExamEvaluator {
  import opened Wrappers
  import opened Json
  import opened Frontend
  import Text
  import Pdf
  import Api
  import Routes
  import Config

  const InputsRequired := "Please provide all required inputs"
  const EvaluateFailed := "Error evaluating answer: "
  const UploadFailed := "Error uploading model answer: "
  const AddTeacherFailed := "Error adding teacher: "
  const AddStudentFailed := "Error adding student: "
  /** The engine's `TypeError` message when `_id` is read from a missing entity. */
  const ReadIdFailed := "Cannot read properties of undefined (reading '_id')"

  /** Every piece of the component's state. */
  datatype Page = Page(
    modelAnswerFile: Option<Pdf.Upload>,
    modelAnswerText: string,
    studentFile: Option<Pdf.Upload>,
    maxMarks: string,
    question: string,
    results: Option<Value>,
    loading: bool,
    error: string,
    step: int,
    teachers: seq<Value>,
    students: seq<Value>,
    selectedTeacher: string,
    selectedStudent: string,
    showAddTeacher: bool,
    showAddStudent: bool,
    newTeacher: TeacherForm,
    newStudent: StudentForm)

  const Initial := Page(None, "", None, "", "", None, false, "", 1, [], [], "", "", false, false,
                        EmptyTeacherForm, EmptyStudentForm)

  /** `value || null` for an optional selection. */
  function OrNull(value: string): (r: Option<string>)
    ensures r.None? <==> value == []
    ensures r.Some? ==> r.value == value
  {
    if value == [] then None else Some(value)
  }

  // ---------------------------------------------------------------- transitions

  /** `loadUsers`: both lists from the two responses; a failure is only logged. */
  function LoadUsersStep(p: Page, fetched: Result<(Value, Value), Failure>): Page {
    match fetched
    case Ok((teachersRes, studentsRes)) =>
      p.(teachers := ListMember(teachersRes, "teachers"), students := ListMember(studentsRes, "students"))
    case Err(_) => p
  }

  /** A created teacher joins the list and is selected; reading the id of a missing one throws. */
  function AddedTeacher(p: Page, teacher: Value): Page {
    if teacher.Null? then p.(teachers := p.teachers + [teacher], error := AddTeacherFailed + ReadIdFailed)
    else p.(teachers := p.teachers + [teacher], selectedTeacher := IdText(teacher), showAddTeacher := false,
            newTeacher := EmptyTeacherForm)
  }

  /** `handleAddTeacher`: no local validation; the page afterwards and the create request sent. */
  function AddTeacherStep(p: Page, created: Result<Value, Failure>): (Page, Value) {
    var sent := Api.CreateTeacherBody(p.newTeacher.name, p.newTeacher.email, p.newTeacher.subject);
    match created
    case Ok(response) => (AddedTeacher(p, Member(response, "teacher")), sent)
    case Err(f) => (p.(error := AddTeacherFailed + ErrorText(f)), sent)
  }

  /** A created student joins the list and is selected; reading the id of a missing one throws. */
  function AddedStudent(p: Page, student: Value): Page {
    if student.Null? then p.(students := p.students + [student], error := AddStudentFailed + ReadIdFailed)
    else p.(students := p.students + [student], selectedStudent := IdText(student), showAddStudent := false,
            newStudent := EmptyStudentForm)
  }

  /** `handleAddStudent`. */
  function AddStudentStep(p: Page, created: Result<Value, Failure>): (Page, Value) {
    var form := p.newStudent;
    var sent := Api.CreateStudentBody(form.name, form.email, form.rollNumber, form.className);
    match created
    case Ok(response) => (AddedStudent(p, Member(response, "student")), sent)
    case Err(f) => (p.(error := AddStudentFailed + ErrorText(f)), sent)
  }

  /** `handleModelAnswerUpload` up to its `await`: nothing without a file; otherwise the file is kept and sent. */
  function StartUploadStep(p: Page, file: Option<Pdf.Upload>): (Page, Option<Pdf.Upload>) {
    if file.None? then (p, None)
    else (p.(modelAnswerFile := file, loading := true, error := ""), file)
  }

  /** `handleModelAnswerUpload` after its `await`: the extracted text and step 2, or a prefixed error. */
  function FinishUploadStep(p: Page, extracted: Result<string, Failure>): Page {
    match extracted
    case Ok(text) => p.(modelAnswerText := text, step := 2, loading := false)
    case Err(f) => p.(error := UploadFailed + ErrorText(f), loading := false)
  }

  /** The whole upload when nothing runs in between. */
  function UploadStep(p: Page, file: Option<Pdf.Upload>, extracted: Result<string, Failure>): Page {
    var (started, sent) := StartUploadStep(p, file);
    if sent.None? then started else FinishUploadStep(started, extracted)
  }

  /** `handleStudentFileUpload`: the chosen file, or none when the choice was cancelled. */
  function StudentFileStep(p: Page, file: Option<Pdf.Upload>): Page {
    p.(studentFile := file)
  }

  /** The inputs `handleEvaluation` insists on. */
  predicate HasRequiredInputs(p: Page) {
    p.studentFile.Some? && p.modelAnswerText != [] && p.maxMarks != []
  }

  /** The entries `evaluateAnswer` builds for this draft. */
  function SubmittedEntries(p: Page): seq<(string, Api.Entry)>
    requires p.studentFile.Some?
  {
    Api.EvaluateFields(p.studentFile.value, p.modelAnswerText, p.maxMarks, p.question,
                       OrNull(p.selectedTeacher), OrNull(p.selectedStudent))
  }

  /** `handleEvaluation` up to its `await`: the page and the body posted, if any. */
  function StartEvaluationStep(p: Page): (Page, Option<seq<(string, Api.Entry)>>) {
    if !HasRequiredInputs(p) then (p.(error := InputsRequired), None)
    else (p.(loading := true, error := "", results := None), Some(SubmittedEntries(p)))
  }

  /** `handleEvaluation` after its `await`: the server's evaluation at step 3, or a prefixed error. */
  function FinishEvaluationStep(p: Page, evaluated: Result<Value, Failure>): Page {
    match evaluated
    case Ok(response) => p.(results := Some(Member(response, "evaluation")), step := 3, loading := false)
    case Err(f) => p.(error := EvaluateFailed + ErrorText(f), loading := false)
  }

  /** The whole evaluation when nothing runs in between. */
  function EvaluationStep(p: Page, evaluated: Result<Value, Failure>): (Page, Option<seq<(string, Api.Entry)>>) {
    var (started, sent) := StartEvaluationStep(p);
    if sent.None? then (started, None) else (FinishEvaluationStep(started, evaluated), sent)
  }

  /** `resetEvaluation`. */
  function ResetStep(p: Page): Page {
    p.(modelAnswerFile := None, modelAnswerText := "", studentFile := None, maxMarks := "", question := "",
       results := None, error := "", step := 1, selectedTeacher := "", selectedStudent := "")
  }

  /** The evaluate button: `disabled={loading || !studentFile || !maxMarks}`. */
  predicate EvaluateEnabled(p: Page) {
    !p.loading && p.studentFile.Some? && p.maxMarks != []
  }

  /** The model answer picker: `disabled={loading || modelAnswerText !== ''}`. */
  predicate ModelUploadEnabled(p: Page) {
    !p.loading && p.modelAnswerText == []
  }

  /** The results panel: `step >= 3 && results`. */
  predicate ShowsResults(p: Page) {
    p.step >= 3 && p.results.Some? && JsTruthy(p.results.value)
  }

  // ---------------------------------------------------------------- properties

  /** The handler refuses, with one message and no request, exactly when a required input is missing. */
  lemma EvaluationRequiresInputs(p: Page, evaluated: Result<Value, Failure>)
    ensures var (q, sent) := EvaluationStep(p, evaluated);
      (sent.None? <==> !HasRequiredInputs(p)) &&
      (!HasRequiredInputs(p) ==> q == p.(error := InputsRequired))
  {
  }

  /** Teacher and student are optional: an empty selection is left out of the body, a chosen one is sent. */
  lemma SelectionsOptional(p: Page)
    requires HasRequiredInputs(p)
    ensures var names := Api.Names(SubmittedEntries(p));
      ("teacher_id" in names <==> p.selectedTeacher != []) && ("student_id" in names <==> p.selectedStudent != [])
  {
    var q := if p.question == [] then None else Some(p.question);
    Api.OptionalFieldsIff(p.studentFile.value, p.modelAnswerText, p.maxMarks, p.question,
                          OrNull(p.selectedTeacher), OrNull(p.selectedStudent));
  }

  /**
   * A draft whose file has an allowed name and whose marks are an integer is accepted by the
   * `evaluate-answer` route, which sees an unselected teacher or student as absent.
   */
  lemma SubmittedRequestAccepted(p: Page)
    requires HasRequiredInputs(p)
    requires Config.AllowedFile(p.studentFile.value.filename) && Text.ParseInt(p.maxMarks).Some?
    ensures var e := SubmittedEntries(p);
      Routes.EvaluateRequestCheck(Api.FilesOf(e), Api.FormOf(e)) ==
        Ok(Routes.EvaluateRequest(p.studentFile.value, p.modelAnswerText, Text.ParseInt(p.maxMarks).value, p.question,
                                  OrNull(p.selectedTeacher), OrNull(p.selectedStudent)))
  {
    Api.ClientRequestAccepted(p.studentFile.value, p.modelAnswerText, p.maxMarks, p.question,
                              OrNull(p.selectedTeacher), OrNull(p.selectedStudent));
  }

  /** Success shows the server's evaluation at step 3; failure keeps the step, and the old results stay cleared. */
  lemma EvaluationOutcomes(p: Page, response: Value, f: Failure)
    requires HasRequiredInputs(p)
    ensures var q := EvaluationStep(p, Ok(response)).0;
      q.step == 3 && q.error == "" && !q.loading && q.results == Some(Member(response, "evaluation")) &&
      (ShowsResults(q) <==> JsTruthy(Member(response, "evaluation")))
    ensures var q := EvaluationStep(p, Err(f)).0;
      q.step == p.step && q.results.None? && !q.loading &&
      q.error == EvaluateFailed + ErrorText(f) && Text.Prefix(q.error, |EvaluateFailed|) == EvaluateFailed
  {
  }

  /** The upload keeps the chosen file; success moves to step 2, failure reports with its prefix. */
  lemma UploadOutcomes(p: Page, file: Pdf.Upload, text: string, f: Failure)
    ensures UploadStep(p, None, Ok(text)) == p && UploadStep(p, None, Err(f)) == p
    ensures var q := UploadStep(p, Some(file), Ok(text));
      q.modelAnswerFile == Some(file) && q.modelAnswerText == text && q.step == 2 && q.error == "" && !q.loading
    ensures var q := UploadStep(p, Some(file), Err(f));
      q.modelAnswerFile == Some(file) && q.modelAnswerText == p.modelAnswerText && q.step == p.step &&
      q.error == UploadFailed + ErrorText(f) && Text.Prefix(q.error, |UploadFailed|) == UploadFailed
  {
  }

  /** Once a model answer is loaded the picker is disabled, so a second upload can only come before it. */
  lemma UploadDisablesPicker(p: Page, file: Pdf.Upload, text: string)
    requires text != []
    ensures !ModelUploadEnabled(UploadStep(p, Some(file), Ok(text)))
  {
  }

  /** Inline creation validates nothing locally: every add sends a request, and a failure keeps the lists. */
  lemma AddAlwaysSends(p: Page, f: Failure)
    ensures AddTeacherStep(p, Err(f)).1 == Api.CreateTeacherBody(p.newTeacher.name, p.newTeacher.email, p.newTeacher.subject)
    ensures var q := AddTeacherStep(p, Err(f)).0;
      q == p.(error := AddTeacherFailed + ErrorText(f)) && Text.Prefix(q.error, |AddTeacherFailed|) == AddTeacherFailed
    ensures var q := AddStudentStep(p, Err(f)).0;
      q == p.(error := AddStudentFailed + ErrorText(f)) && Text.Prefix(q.error, |AddStudentFailed|) == AddStudentFailed
  {
  }

  /** A successful add appends the created entity and selects it. */
  lemma AddSelects(p: Page, response: Value)
    requires !Member(response, "teacher").Null? && !Member(response, "student").Null?
    ensures var q := AddTeacherStep(p, Ok(response)).0;
      q.teachers == p.teachers + [Member(response, "teacher")] && q.selectedTeacher == IdText(Member(response, "teacher")) &&
      q.newTeacher == EmptyTeacherForm && !q.showAddTeacher
    ensures var q := AddStudentStep(p, Ok(response)).0;
      q.students == p.students + [Member(response, "student")] && q.selectedStudent == IdText(Member(response, "student")) &&
      q.newStudent == EmptyStudentForm && !q.showAddStudent
  {
  }

  /** Reset restores the initial draft, selections included; only the lists and the add-forms survive. */
  lemma ResetRestoresInitial(p: Page)
    ensures ResetStep(p) == Initial.(loading := p.loading, teachers := p.teachers, students := p.students,
                                     showAddTeacher := p.showAddTeacher, showAddStudent := p.showAddStudent,
                                     newTeacher := p.newTeacher, newStudent := p.newStudent)
  {
  }

  /** The evaluate button is enabled for a draft the handler still refuses: one without model answer text. */
  lemma ButtonLaxerThanHandler(file: Pdf.Upload)
    ensures var p := Initial.(studentFile := Some(file), maxMarks := "10");
      EvaluateEnabled(p) && EvaluationStep(p, Err(Failure(None, ""))).0.error == InputsRequired
  {
  }

  /** When the button is enabled and a model answer is loaded, the handler sends the request. */
  lemma EnabledButtonSends(p: Page, evaluated: Result<Value, Failure>)
    requires EvaluateEnabled(p) && p.modelAnswerText != []
    ensures EvaluationStep(p, evaluated).1 == Some(SubmittedEntries(p))
  {
  }

  /** The step only moves forward through the handlers, to 2 on upload and 3 on evaluation; reset returns to 1. */
  lemma StepProgress(p: Page, file: Option<Pdf.Upload>, extracted: Result<string, Failure>, evaluated: Result<Value, Failure>)
    requires 1 <= p.step <= 3
    ensures 1 <= UploadStep(p, file, extracted).step <= 3 && 1 <= EvaluationStep(p, evaluated).0.step <= 3
    ensures StudentFileStep(p, file).step == p.step && ResetStep(p).step == 1
  {
  }

  /** Adding a teacher or a student never changes the step. */
  lemma AddKeepsStep(p: Page, created: Result<Value, Failure>)
    ensures AddTeacherStep(p, created).0.step == p.step && AddStudentStep(p, created).0.step == p.step
  {
  }

  /**
   * Nothing discards a late response: a reset while an evaluation is in flight is undone by its
   * reply, which brings back step 3 with the result for the cleared draft.
   */
  lemma LateResponseOverridesReset(p: Page, response: Value)
    requires HasRequiredInputs(p)
    ensures var q := FinishEvaluationStep(ResetStep(StartEvaluationStep(p).0), Ok(response));
      q.step == 3 && q.results == Some(Member(response, "evaluation")) &&
      q.studentFile.None? && q.modelAnswerText == [] && q.maxMarks == []
  {
  }

  /** While a request is in flight both buttons are disabled, so neither handler can start again from the UI. */
  lemma InFlightDisablesButtons(p: Page, file: Pdf.Upload)
    requires HasRequiredInputs(p)
    ensures !EvaluateEnabled(StartEvaluationStep(p).0) && !ModelUploadEnabled(StartEvaluationStep(p).0)
    ensures !EvaluateEnabled(StartUploadStep(p, Some(file)).0) && !ModelUploadEnabled(StartUploadStep(p, Some(file)).0)
  {
  }

  // ---------------------------------------------------------------- the component

  class ExamEvaluator {
    var modelAnswerFile: Option<Pdf.Upload>
    var modelAnswerText: string
    var studentFile: Option<Pdf.Upload>
    var maxMarks: string
    var question: string
    var results: Option<Value>
    var loading: bool
    var error: string
    var step: int
    var teachers: seq<Value>
    var students: seq<Value>
    var selectedTeacher: string
    var selectedStudent: string
    var showAddTeacher: bool
    var showAddStudent: bool
    var newTeacher: TeacherForm
    var newStudent: StudentForm

    function State(): Page
      reads this
    {
      Page(modelAnswerFile, modelAnswerText, studentFile, maxMarks, question, results, loading, error, step,
           teachers, students, selectedTeacher, selectedStudent, showAddTeacher, showAddStudent, newTeacher, newStudent)
    }

    constructor()
      ensures State() == Initial
    {
      modelAnswerFile, modelAnswerText, studentFile, maxMarks, question := None, "", None, "", "";
      results, loading, error, step := None, false, "", 1;
      teachers, students, selectedTeacher, selectedStudent := [], [], "", "";
      showAddTeacher, showAddStudent, newTeacher, newStudent := false, false, EmptyTeacherForm, EmptyStudentForm;
    }

    method LoadUsers(fetched: Result<(Value, Value), Failure>)
      modifies this
      ensures State() == LoadUsersStep(old(State()), fetched)
    {
      if fetched.Ok? {
        var (teachersRes, studentsRes) := fetched.value;
        teachers := ListMember(teachersRes, "teachers");
        students := ListMember(studentsRes, "students");
      }
    }

    method HandleAddTeacher(created: Result<Value, Failure>) returns (sent: Value)
      modifies this
      ensures (State(), sent) == AddTeacherStep(old(State()), created)
    {
      sent := Api.CreateTeacherBody(newTeacher.name, newTeacher.email, newTeacher.subject);
      match created {
        case Ok(response) =>
          ghost var before := State();
          var teacher := Member(response, "teacher");
          teachers := teachers + [teacher];
          if teacher.Null? {
            error := AddTeacherFailed + ReadIdFailed;
          } else {
            SelectCreatedTeacher(teacher);
          }
          assert State() == AddedTeacher(before, teacher);
        case Err(f) =>
          error := AddTeacherFailed + ErrorText(f);
      }
    }

    /** The setters that follow a successful create: select the new teacher, hide and clear the form. */
    method SelectCreatedTeacher(teacher: Value)
      modifies this
      ensures State() == old(State()).(selectedTeacher := IdText(teacher), showAddTeacher := false, newTeacher := EmptyTeacherForm)
    {
      selectedTeacher, showAddTeacher, newTeacher := IdText(teacher), false, EmptyTeacherForm;
    }

    method HandleAddStudent(created: Result<Value, Failure>) returns (sent: Value)
      modifies this
      ensures (State(), sent) == AddStudentStep(old(State()), created)
    {
      sent := Api.CreateStudentBody(newStudent.name, newStudent.email, newStudent.rollNumber, newStudent.className);
      match created {
        case Ok(response) =>
          ghost var before := State();
          var student := Member(response, "student");
          students := students + [student];
          if student.Null? {
            error := AddStudentFailed + ReadIdFailed;
          } else {
            SelectCreatedStudent(student);
          }
          assert State() == AddedStudent(before, student);
        case Err(f) =>
          error := AddStudentFailed + ErrorText(f);
      }
    }

    /** The setters that follow a successful create: select the new student, hide and clear the form. */
    method SelectCreatedStudent(student: Value)
      modifies this
      ensures State() == old(State()).(selectedStudent := IdText(student), showAddStudent := false, newStudent := EmptyStudentForm)
    {
      selectedStudent, showAddStudent, newStudent := IdText(student), false, EmptyStudentForm;
    }

    method StartModelAnswerUpload(file: Option<Pdf.Upload>) returns (sent: Option<Pdf.Upload>)
      modifies this
      ensures (State(), sent) == StartUploadStep(old(State()), file)
    {
      if file.None? {
        return None;
      }
      modelAnswerFile, loading, error := file, true, "";
      sent := file;
    }

    method FinishModelAnswerUpload(extracted: Result<string, Failure>)
      modifies this
      ensures State() == FinishUploadStep(old(State()), extracted)
    {
      match extracted {
        case Ok(text) =>
          modelAnswerText, step := text, 2;
        case Err(f) =>
          error := UploadFailed + ErrorText(f);
      }
      loading := false;
    }

    method HandleStudentFileUpload(file: Option<Pdf.Upload>)
      modifies this
      ensures State() == StudentFileStep(old(State()), file)
    {
      studentFile := file;
    }

    method StartEvaluation() returns (sent: Option<seq<(string, Api.Entry)>>)
      modifies this
      ensures (State(), sent) == StartEvaluationStep(old(State()))
    {
      if studentFile.None? || modelAnswerText == [] || maxMarks == [] {
        error := InputsRequired;
        return None;
      }
      loading, error, results := true, "", None;
      var body := Api.EvaluateAnswer(Api.GivenFile(studentFile.value), modelAnswerText, maxMarks, question,
                                     OrNull(selectedTeacher), OrNull(selectedStudent));
      sent := Some(body.entries);
    }

    method FinishEvaluation(evaluated: Result<Value, Failure>)
      modifies this
      ensures State() == FinishEvaluationStep(old(State()), evaluated)
    {
      match evaluated {
        case Ok(response) =>
          results, step := Some(Member(response, "evaluation")), 3;
        case Err(f) =>
          error := EvaluateFailed + ErrorText(f);
      }
      loading := false;
    }

    method ResetEvaluation()
      modifies this
      ensures State() == ResetStep(old(State()))
    {
      ghost var before := State();
      ClearModelAnswer();
      ClearStudentAnswer();
      ClearOutcome();
      ClearSelection();
      assert State() == before.(modelAnswerFile := None, modelAnswerText := "").(studentFile := None, maxMarks := "", question := "")
        .(results := None, error := "", step := 1).(selectedTeacher := "", selectedStudent := "");
    }

    /** The first calls of `resetEvaluation`, a few setters at a time. */
    method ClearModelAnswer()
      modifies this
      ensures State() == old(State()).(modelAnswerFile := None, modelAnswerText := "")
    {
      modelAnswerFile, modelAnswerText := None, "";
    }

    method ClearStudentAnswer()
      modifies this
      ensures State() == old(State()).(studentFile := None, maxMarks := "", question := "")
    {
      studentFile, maxMarks, question := None, "", "";
    }

    method ClearOutcome()
      modifies this
      ensures State() == old(State()).(results := None, error := "", step := 1)
    {
      results, error, step := None, "", 1;
    }

    method ClearSelection()
      modifies this
      ensures State() == old(State()).(selectedTeacher := "", selectedStudent := "")
    {
      selectedTeacher, selectedStudent := "", "";
    }
  }
}
