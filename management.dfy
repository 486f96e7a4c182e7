/**
 * The teacher and student management page (`pages/Management.jsx`). Its state is two entity
 * lists, two add-forms with their visibility, and an error and a success message; each
 * handler changes that state in place. Requests are not performed: each handler receives
 * the outcome of its request as an input and returns the request it would send (or `None`
 * when its own checks stop it first). The browser's `confirm` is a boolean input.
 */
module Management {
  import opened Wrappers
  import opened Json
  import opened Frontend
  import Api

  datatype Tab = TeachersTab | StudentsTab

  const TeacherFieldsRequired := "Name and email are required"
  const StudentFieldsRequired := "Name, email, and roll number are required"
  const TeacherAdded := "Teacher added successfully!"
  const StudentAdded := "Student added successfully!"
  const TeacherDeleted := "Teacher deleted successfully!"
  const StudentDeleted := "Student deleted successfully!"
  const TeacherDeleteFailed := "Failed to delete teacher"
  const StudentDeleteFailed := "Failed to delete student"

  /** Every piece of the page's state. */
  datatype Page = Page(
    activeTab: Tab,
    teachers: seq<Value>,
    students: seq<Value>,
    showAddTeacher: bool,
    showAddStudent: bool,
    error: string,
    success: string,
    newTeacher: TeacherForm,
    newStudent: StudentForm)

  const Initial := Page(TeachersTab, [], [], false, false, "", "", EmptyTeacherForm, EmptyStudentForm)

  // ---------------------------------------------------------------- transitions

  /** `loadData`: both lists from the two responses, or the failure's message. */
  function LoadDataStep(p: Page, fetched: Result<(Value, Value), Failure>): Page {
    match fetched
    case Ok((teachersRes, studentsRes)) =>
      p.(teachers := ListMember(teachersRes, "teachers"), students := ListMember(studentsRes, "students"))
    case Err(f) => p.(error := f.message)
  }

  /** `handleAddTeacher`: the page afterwards and the create request sent, if any. */
  function AddTeacherStep(p: Page, created: Result<Value, Failure>): (Page, Option<Value>) {
    var form := p.newTeacher;
    if form.name == [] || form.email == [] then (p.(error := TeacherFieldsRequired), None)
    else
      var sent := Some(Api.CreateTeacherBody(form.name, form.email, form.subject));
      match created
      case Ok(response) =>
        (p.(error := "", teachers := p.teachers + [Member(response, "teacher")], newTeacher := EmptyTeacherForm,
            showAddTeacher := false, success := TeacherAdded), sent)
      case Err(f) => (p.(error := ErrorText(f)), sent)
  }

  /** `handleAddStudent`: as for teachers, but the roll number is required too. */
  function AddStudentStep(p: Page, created: Result<Value, Failure>): (Page, Option<Value>) {
    var form := p.newStudent;
    if form.name == [] || form.email == [] || form.rollNumber == [] then (p.(error := StudentFieldsRequired), None)
    else
      var sent := Some(Api.CreateStudentBody(form.name, form.email, form.rollNumber, form.className));
      match created
      case Ok(response) =>
        (p.(error := "", students := p.students + [Member(response, "student")], newStudent := EmptyStudentForm,
            showAddStudent := false, success := StudentAdded), sent)
      case Err(f) => (p.(error := ErrorText(f)), sent)
  }

  /** `handleDeleteTeacher`: nothing without confirmation; the id is dropped only when the request succeeds. */
  function DeleteTeacherStep(p: Page, id: Value, confirmed: bool, deleted: Result<(), Failure>): Page {
    if !confirmed then p
    else match deleted
      case Ok(_) => p.(teachers := WithoutId(p.teachers, id), success := TeacherDeleted)
      case Err(f) => p.(error := ServerErrorOr(f, TeacherDeleteFailed))
  }

  /** `handleDeleteStudent`. */
  function DeleteStudentStep(p: Page, id: Value, confirmed: bool, deleted: Result<(), Failure>): Page {
    if !confirmed then p
    else match deleted
      case Ok(_) => p.(students := WithoutId(p.students, id), success := StudentDeleted)
      case Err(f) => p.(error := ServerErrorOr(f, StudentDeleteFailed))
  }

  // ---------------------------------------------------------------- properties

  /** A teacher without a name or an email is refused locally: an error, no request, nothing else changes. */
  lemma AddTeacherRequiresNameAndEmail(p: Page, created: Result<Value, Failure>)
    ensures var (q, sent) := AddTeacherStep(p, created);
      (sent.None? <==> p.newTeacher.name == [] || p.newTeacher.email == []) &&
      (sent.None? ==> q == p.(error := TeacherFieldsRequired))
  {
  }

  /** A student also needs a roll number; the class may stay empty. */
  lemma AddStudentRequiresRollNumber(p: Page, created: Result<Value, Failure>)
    ensures var (q, sent) := AddStudentStep(p, created);
      (sent.None? <==> p.newStudent.name == [] || p.newStudent.email == [] || p.newStudent.rollNumber == []) &&
      (sent.None? ==> q == p.(error := StudentFieldsRequired))
  {
  }

  /** A successful add appends the created teacher at the end and resets and hides the form. */
  lemma AddTeacherAppends(p: Page, response: Value)
    requires p.newTeacher.name != [] && p.newTeacher.email != []
    ensures var (q, sent) := AddTeacherStep(p, Ok(response));
      sent == Some(Api.CreateTeacherBody(p.newTeacher.name, p.newTeacher.email, p.newTeacher.subject)) &&
      q.teachers == p.teachers + [Member(response, "teacher")] && q.students == p.students &&
      q.error == "" && q.success == TeacherAdded &&
      q.newTeacher == EmptyTeacherForm && !q.showAddTeacher && q.newStudent == p.newStudent
  {
  }

  /** A successful add appends the created student at the end and resets and hides the form. */
  lemma AddStudentAppends(p: Page, response: Value)
    requires p.newStudent.name != [] && p.newStudent.email != [] && p.newStudent.rollNumber != []
    ensures var (q, sent) := AddStudentStep(p, Ok(response));
      sent == Some(Api.CreateStudentBody(p.newStudent.name, p.newStudent.email, p.newStudent.rollNumber, p.newStudent.className)) &&
      q.students == p.students + [Member(response, "student")] && q.teachers == p.teachers &&
      q.error == "" && q.success == StudentAdded &&
      q.newStudent == EmptyStudentForm && !q.showAddStudent && q.newTeacher == p.newTeacher
  {
  }

  /** A failed add keeps both lists and the form, and shows the server's error or the failure's message. */
  lemma AddFailureKeepsLists(p: Page, f: Failure)
    ensures var (q, _) := AddTeacherStep(p, Err(f));
      q.teachers == p.teachers && q.students == p.students && q.newTeacher == p.newTeacher && q.success == p.success &&
      (q.error == TeacherFieldsRequired || q.error == ErrorText(f))
    ensures var (q, _) := AddStudentStep(p, Err(f));
      q.teachers == p.teachers && q.students == p.students && q.newStudent == p.newStudent && q.success == p.success &&
      (q.error == StudentFieldsRequired || q.error == ErrorText(f))
  {
  }

  /** Without confirmation a delete changes nothing. */
  lemma DeclinedDeleteChangesNothing(p: Page, id: Value, deleted: Result<(), Failure>)
    ensures DeleteTeacherStep(p, id, false, deleted) == p
    ensures DeleteStudentStep(p, id, false, deleted) == p
  {
  }

  /** A confirmed, successful delete drops exactly the entries with that id and keeps the others in order. */
  lemma DeleteTeacherRemovesExactly(p: Page, id: Value)
    ensures var q := DeleteTeacherStep(p, id, true, Ok(()));
      Seqs.IsSubsequence(q.teachers, p.teachers) &&
      (forall x :: x in q.teachers <==> x in p.teachers && IdOf(x) != id) &&
      q.students == p.students && q.success == TeacherDeleted
  {
    WithoutIdExact(p.teachers, id);
  }

  /** The same for students. */
  lemma DeleteStudentRemovesExactly(p: Page, id: Value)
    ensures var q := DeleteStudentStep(p, id, true, Ok(()));
      Seqs.IsSubsequence(q.students, p.students) &&
      (forall x :: x in q.students <==> x in p.students && IdOf(x) != id) &&
      q.teachers == p.teachers && q.success == StudentDeleted
  {
    WithoutIdExact(p.students, id);
  }

  /** A failed delete keeps the list and shows the server's error, else the fixed message. */
  lemma FailedDeleteKeepsList(p: Page, id: Value, f: Failure)
    ensures var q := DeleteTeacherStep(p, id, true, Err(f));
      q == p.(error := ServerErrorOr(f, TeacherDeleteFailed)) &&
      (f.serverError.None? ==> q.error == TeacherDeleteFailed)
    ensures var q := DeleteStudentStep(p, id, true, Err(f));
      q == p.(error := ServerErrorOr(f, StudentDeleteFailed)) &&
      (f.serverError.None? ==> q.error == StudentDeleteFailed)
  {
  }

  /** Loading replaces both lists with the fetched ones, an absent list reading as empty. */
  lemma LoadDataReplacesLists(p: Page, teachersRes: Value, studentsRes: Value)
    ensures var q := LoadDataStep(p, Ok((teachersRes, studentsRes)));
      q.teachers == (if Member(teachersRes, "teachers").Arr? then Member(teachersRes, "teachers").items else []) &&
      q.students == (if Member(studentsRes, "students").Arr? then Member(studentsRes, "students").items else []) &&
      q.error == p.error
    ensures LoadDataStep(p, Ok((Obj(map[]), Obj(map[])))).teachers == []
  {
  }

  /** A failed load keeps both lists and shows the client-side message, not the server's error. */
  lemma LoadFailureKeepsLists(p: Page, f: Failure)
    ensures LoadDataStep(p, Err(f)) == p.(error := f.message)
  {
  }

  // ---------------------------------------------------------------- the component

  class ManagementPage {
    var activeTab: Tab
    var teachers: seq<Value>
    var students: seq<Value>
    var showAddTeacher: bool
    var showAddStudent: bool
    var error: string
    var success: string
    var newTeacher: TeacherForm
    var newStudent: StudentForm

    function State(): Page
      reads this
    {
      Page(activeTab, teachers, students, showAddTeacher, showAddStudent, error, success, newTeacher, newStudent)
    }

    constructor()
      ensures State() == Initial
    {
      activeTab, teachers, students := TeachersTab, [], [];
      showAddTeacher, showAddStudent := false, false;
      error, success := "", "";
      newTeacher, newStudent := EmptyTeacherForm, EmptyStudentForm;
    }

    method LoadData(fetched: Result<(Value, Value), Failure>)
      modifies this
      ensures State() == LoadDataStep(old(State()), fetched)
    {
      if fetched.Ok? {
        var (teachersRes, studentsRes) := fetched.value;
        teachers := ListMember(teachersRes, "teachers");
        students := ListMember(studentsRes, "students");
      } else {
        error := fetched.error.message;
      }
    }

    method HandleAddTeacher(created: Result<Value, Failure>) returns (sent: Option<Value>)
      modifies this
      ensures (State(), sent) == AddTeacherStep(old(State()), created)
    {
      if newTeacher.name == [] || newTeacher.email == [] {
        error := TeacherFieldsRequired;
        return None;
      }
      error := "";
      sent := Some(Api.CreateTeacherBody(newTeacher.name, newTeacher.email, newTeacher.subject));
      match created {
        case Ok(response) =>
          teachers := teachers + [Member(response, "teacher")];
          newTeacher := EmptyTeacherForm;
          showAddTeacher := false;
          success := TeacherAdded;
        case Err(f) =>
          error := ErrorText(f);
      }
    }

    method HandleAddStudent(created: Result<Value, Failure>) returns (sent: Option<Value>)
      modifies this
      ensures (State(), sent) == AddStudentStep(old(State()), created)
    {
      if newStudent.name == [] || newStudent.email == [] || newStudent.rollNumber == [] {
        error := StudentFieldsRequired;
        return None;
      }
      error := "";
      sent := Some(Api.CreateStudentBody(newStudent.name, newStudent.email, newStudent.rollNumber, newStudent.className));
      match created {
        case Ok(response) =>
          students := students + [Member(response, "student")];
          newStudent := EmptyStudentForm;
          showAddStudent := false;
          success := StudentAdded;
        case Err(f) =>
          error := ErrorText(f);
      }
    }

    method HandleDeleteTeacher(teacherId: Value, confirmed: bool, deleted: Result<(), Failure>)
      modifies this
      ensures State() == DeleteTeacherStep(old(State()), teacherId, confirmed, deleted)
    {
      if confirmed {
        match deleted {
          case Ok(_) =>
            teachers := WithoutId(teachers, teacherId);
            success := TeacherDeleted;
          case Err(f) =>
            error := ServerErrorOr(f, TeacherDeleteFailed);
        }
      }
    }

    method HandleDeleteStudent(studentId: Value, confirmed: bool, deleted: Result<(), Failure>)
      modifies this
      ensures State() == DeleteStudentStep(old(State()), studentId, confirmed, deleted)
    {
      if confirmed {
        match deleted {
          case Ok(_) =>
            students := WithoutId(students, studentId);
            success := StudentDeleted;
          case Err(f) =>
            error := ServerErrorOr(f, StudentDeleteFailed);
        }
      }
    }
  }
}
