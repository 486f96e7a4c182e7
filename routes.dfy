/**
 * The Flask routes of backend/app.py that decide or shape something: `serialize_doc`,
 * the create ladders for teachers and students, the upload and evaluate ladders, the
 * evaluation listings, the statistics fallback and delete. Flask's request, the teacher
 * and student stores, the PDF and OCR libraries and the model call are inputs.
 */
module Routes {
  import opened Wrappers
  import opened Text
  import opened Json
  import opened Seqs
  import Config
  import Pdf
  import Gemini
  import ES = EvaluationStore

  /** A status code and the JSON body `jsonify` sends. */
  datatype Response = Response(status: int, body: Value)

  /** `jsonify({'error': message}), status`. */
  function Error(status: int, message: string): Response {
    Response(status, Obj(map["error" := Str(message)]))
  }

  /**
   * `serialize_doc`: `None` stays `None`, a list is serialized element by element, a dict
   * is copied with its `_id` (if any) turned into its string form, anything else is kept.
   */
  function SerializeDoc(v: Value): (r: Value)
    ensures v.Null? ==> r.Null?
    ensures v.Arr? ==> r.Arr? && |r.items| == |v.items|
    ensures v.Obj? ==> r.Obj? && r.fields.Keys == v.fields.Keys
    ensures !v.Arr? && !v.Obj? ==> r == v
  {
    match v
    case Arr(items) => Arr(seq(|items|, i requires 0 <= i < |items| => SerializeDoc(items[i])))
    case Obj(d) => Obj(if "_id" in d then d["_id" := Str(PyStr(d["_id"]))] else d)
    case _ => v
  }

  /** A list keeps its order: element `i` of the result is element `i` serialized. */
  lemma SerializeListElementwise(items: seq<Value>, i: nat)
    requires i < |items|
    ensures SerializeDoc(Arr(items)).items[i] == SerializeDoc(items[i])
  {
  }

  /** A dict's `_id` becomes its string form; every other field is unchanged. */
  lemma SerializeDict(d: Dict)
    ensures var r := SerializeDoc(Obj(d)).fields;
      ("_id" in d ==> r["_id"] == Str(PyStr(d["_id"]))) &&
      forall k :: k in d && k != "_id" ==> r[k] == d[k]
  {
  }

  /** Serializing twice is serializing once. */
  lemma {:induction false} SerializeIdempotent(v: Value)
    ensures SerializeDoc(SerializeDoc(v)) == SerializeDoc(v)
  {
    match v
    case Arr(items) =>
      var once := SerializeDoc(v).items;
      forall i | 0 <= i < |items|
        ensures SerializeDoc(once[i]) == once[i]
      {
        SerializeIdempotent(items[i]);
      }
      assert SerializeDoc(SerializeDoc(v)).items == once;
    case Obj(d) =>
      if "_id" in d {
        var once := d["_id" := Str(PyStr(d["_id"]))];
        assert PyStr(Str(PyStr(d["_id"]))) == PyStr(d["_id"]);
        assert once["_id" := Str(PyStr(once["_id"]))] == once;
      }
    case _ =>
  }

  /** The string id a client receives parses back to the stored ObjectId. */
  lemma SerializedIdRoundTrip(d: Dict)
    requires "_id" in d && d["_id"].Oid? && IsOidText(d["_id"].hex)
    ensures ParseOid(SerializeDoc(Obj(d)).fields["_id"].s) == Some(d["_id"])
  {
    ParseOidText(d["_id"].hex);
  }

  // ---------------------------------------------------------------- create routes

  /** The two entities that can be registered. */
  datatype Entity = Teacher | Student

  /** The body fields passed to `create` after name and email, in order. */
  function ExtraKeys(e: Entity): seq<string> {
    match e
    case Teacher => ["subject"]
    case Student => ["roll_number", "class"]
  }

  function Noun(e: Entity): string {
    match e
    case Teacher => "Teacher"
    case Student => "Student"
  }

  function ResponseKey(e: Entity): string {
    match e
    case Teacher => "teacher"
    case Student => "student"
  }

  /** `data.get(k)` for each key. */
  function GetAll(d: Dict, keys: seq<string>): (r: seq<Value>)
    ensures |r| == |keys|
    ensures forall i :: 0 <= i < |keys| ==> r[i] == Get(d, keys[i], Null)
  {
    if keys == [] then [] else [Get(d, keys[0], Null)] + GetAll(d, keys[1..])
  }

  /**
   * `create_teacher` / `create_student`: `request.json` (or the exception reading it
   * raised), the email lookup and the store's `create` are inputs. Name and email must be
   * truthy, then the email must be new, then the record is created.
   */
  function CreateEntity(e: Entity, data: Result<Value, string>,
                        findByEmail: Value -> Result<Option<Dict>, string>,
                        create: seq<Value> -> Result<Dict, string>): (r: Response)
    ensures r.status == 201 || r.status == 400 || r.status == 500
    ensures r.status == 400 ==>
              r == Error(400, "Name and email are required") || r == Error(400, Noun(e) + " with this email already exists")
    ensures r.status == 201 ==>
              exists record :: r == Response(201, Obj(map["success" := Bool(true), ResponseKey(e) := SerializeDoc(Obj(record))]))
  {
    match data
    case Err(m) => Error(500, m)
    case Ok(v) =>
      if !v.Obj? then Error(500, "'" + TypeName(v) + "' object has no attribute 'get'")
      else
        var name := Get(v.fields, "name", Null);
        var email := Get(v.fields, "email", Null);
        if !PyTruthy(name) || !PyTruthy(email) then Error(400, "Name and email are required")
        else match findByEmail(email)
          case Err(m) => Error(500, m)
          case Ok(existing) =>
            if existing.Some? && PyTruthy(Obj(existing.value)) then
              Error(400, Noun(e) + " with this email already exists")
            else match create([name, email] + GetAll(v.fields, ExtraKeys(e)))
              case Err(m) => Error(500, m)
              case Ok(record) =>
                Response(201, Obj(map["success" := Bool(true), ResponseKey(e) := SerializeDoc(Obj(record))]))
  }

  /** A missing name or email is rejected before any lookup: the answer does not depend on the store. */
  lemma CreateRequiresNameAndEmail(e: Entity, d: Dict,
                                   find1: Value -> Result<Option<Dict>, string>, create1: seq<Value> -> Result<Dict, string>,
                                   find2: Value -> Result<Option<Dict>, string>, create2: seq<Value> -> Result<Dict, string>)
    requires !PyTruthy(Get(d, "name", Null)) || !PyTruthy(Get(d, "email", Null))
    ensures CreateEntity(e, Ok(Obj(d)), find1, create1) == Error(400, "Name and email are required")
    ensures CreateEntity(e, Ok(Obj(d)), find1, create1) == CreateEntity(e, Ok(Obj(d)), find2, create2)
  {
  }

  /** An existing email is rejected without creating anything. */
  lemma CreateRejectsDuplicate(e: Entity, d: Dict, existing: Dict,
                               find: Value -> Result<Option<Dict>, string>,
                               create1: seq<Value> -> Result<Dict, string>, create2: seq<Value> -> Result<Dict, string>)
    requires PyTruthy(Get(d, "name", Null)) && PyTruthy(Get(d, "email", Null))
    requires find(Get(d, "email", Null)) == Ok(Some(existing)) && existing != map[]
    ensures CreateEntity(e, Ok(Obj(d)), find, create1) == Error(400, Noun(e) + " with this email already exists")
    ensures CreateEntity(e, Ok(Obj(d)), find, create1) == CreateEntity(e, Ok(Obj(d)), find, create2)
  {
  }

  /** 201 exactly when the body is a dict with name and email, the email is new and `create` returns. */
  lemma CreateSucceedsIff(e: Entity, data: Result<Value, string>,
                          find: Value -> Result<Option<Dict>, string>, create: seq<Value> -> Result<Dict, string>)
    ensures CreateEntity(e, data, find, create).status == 201 <==>
      data.Ok? && data.value.Obj? &&
      PyTruthy(Get(data.value.fields, "name", Null)) && PyTruthy(Get(data.value.fields, "email", Null)) &&
      find(Get(data.value.fields, "email", Null)).Ok? &&
      (var existing := find(Get(data.value.fields, "email", Null)).value;
       existing.None? || existing.value == map[]) &&
      create([Get(data.value.fields, "name", Null), Get(data.value.fields, "email", Null)] +
             GetAll(data.value.fields, ExtraKeys(e))).Ok?
  {
  }

  /** A student is created from the body's `roll_number` and `class` fields, in that order after name and email. */
  lemma CreateStudentArguments(d: Dict)
    ensures [Get(d, "name", Null), Get(d, "email", Null)] + GetAll(d, ExtraKeys(Student)) ==
      [Get(d, "name", Null), Get(d, "email", Null), Get(d, "roll_number", Null), Get(d, "class", Null)]
  {
    var extras := GetAll(d, ExtraKeys(Student));
    assert extras == [Get(d, "roll_number", Null), Get(d, "class", Null)];
  }

  // ---------------------------------------------------------------- upload and evaluate ladders

  /** `request.form.get(k)`. */
  function FormGet(form: map<string, string>, k: string): Option<string> {
    if k in form then Some(form[k]) else None
  }

  /** A form value that is present and non-empty (truthy). */
  predicate Filled(o: Option<string>) {
    o.Some? && o.value != []
  }

  /** `upload_model_answer`'s checks, in order; `accepts` is the extension check. */
  function UploadCheck(files: map<string, Pdf.Upload>, accepts: string -> bool): Option<string> {
    if "file" !in files then Some("No file provided")
    else if files["file"].filename == [] then Some("No file selected")
    else if !accepts(files["file"].filename) then Some("Invalid file type. Only PDF allowed.")
    else None
  }

  /** The same checks as an ordered list of conditions and messages. */
  function UploadChecks(files: map<string, Pdf.Upload>, accepts: string -> bool): seq<Check<string>> {
    [Check("file" in files, "No file provided"),
     Check("file" in files ==> files["file"].filename != [], "No file selected"),
     Check("file" in files ==> accepts(files["file"].filename), "Invalid file type. Only PDF allowed.")]
  }

  /** The route rejects with the first failing check's message, and accepts when all pass. */
  lemma UploadCheckOrder(files: map<string, Pdf.Upload>, accepts: string -> bool)
    ensures UploadCheck(files, accepts) == FirstFailure(UploadChecks(files, accepts))
  {
    var checks := UploadChecks(files, accepts);
    if "file" !in files {
      FirstFailureAt(checks, 0);
    } else if files["file"].filename == [] {
      FirstFailureAt(checks, 1);
    } else if !accepts(files["file"].filename) {
      FirstFailureAt(checks, 2);
    }
  }

  /** The check as written uses `allowed_file`, so an image passes although only PDFs can be read. */
  lemma UploadAcceptsImageAsWritten(content: string)
    ensures UploadCheck(map["file" := Pdf.Upload("answer.png", content)], Config.AllowedFile) == None
  {
    assert Config.AllowedFile("answer.png") by {
      Config.ExtensionOf("answer", "png");
      assert "answer" + "." + "png" == "answer.png";
      assert Lower("png") == "png";
    }
  }

  /** The evidently intended check: the extension after the last dot is `pdf`, in any case. */
  predicate IsPdfName(filename: string) {
    '.' in filename && Lower(Config.Extension(filename).value) == "pdf"
  }

  /** The intended check accepts exactly the allowed names whose extension is `pdf`. */
  lemma IsPdfNameIff(filename: string)
    ensures IsPdfName(filename) <==> Config.AllowedFile(filename) && Lower(Config.Extension(filename).value) == "pdf"
  {
    if IsPdfName(filename) {
      assert "pdf" in Config.AllowedExtensions;
    }
  }

  /** Under the intended check an image is refused with the message the route already gives. */
  lemma UploadRejectsImage(content: string)
    ensures UploadCheck(map["file" := Pdf.Upload("answer.png", content)], IsPdfName) == Some("Invalid file type. Only PDF allowed.")
  {
    Config.ExtensionOf("answer", "png");
    assert "answer" + "." + "png" == "answer.png";
    assert Lower("png") == "png";
  }

  /** What `evaluate_answer` reads from the request once its checks pass. */
  datatype EvaluateRequest = EvaluateRequest(
    studentFile: Pdf.Upload,
    modelAnswer: string,
    maxMarks: int,
    question: string,
    teacherId: Option<string>,
    studentId: Option<string>)

  /** The messages of `evaluate_answer`'s checks. */
  const NoStudentFile := "No student file provided"
  const AnswerAndMarksRequired := "Model answer and max marks are required"
  const InvalidFileType := "Invalid file type"
  const InvalidMaxMarks := "Invalid max marks value"

  /** `evaluate_answer`'s checks, in order: file part, model answer and marks, extension, integer marks. */
  function EvaluateRequestCheck(files: map<string, Pdf.Upload>, form: map<string, string>): (r: Result<EvaluateRequest, string>)
    ensures r.Ok? ==> FormGet(form, "model_answer") == Some(r.value.modelAnswer) && r.value.modelAnswer != []
    ensures r.Ok? ==> "max_marks" in form && form["max_marks"] != [] && ParseInt(form["max_marks"]) == Some(r.value.maxMarks)
    ensures r.Ok? ==> "student_file" in files && r.value.studentFile == files["student_file"] &&
                      Config.AllowedFile(r.value.studentFile.filename)
  {
    if "student_file" !in files then Err(NoStudentFile)
    else if !Filled(FormGet(form, "model_answer")) || !Filled(FormGet(form, "max_marks")) then
      Err(AnswerAndMarksRequired)
    else if !Config.AllowedFile(files["student_file"].filename) then Err(InvalidFileType)
    else match ParseInt(form["max_marks"])
      case None => Err(InvalidMaxMarks)
      case Some(n) =>
        Ok(EvaluateRequest(files["student_file"], form["model_answer"], n,
          if "question" in form then form["question"] else "",
          FormGet(form, "teacher_id"), FormGet(form, "student_id")))
  }

  /** The same checks as an ordered list of conditions and messages. */
  function EvaluateChecks(files: map<string, Pdf.Upload>, form: map<string, string>): seq<Check<string>> {
    [Check("student_file" in files, NoStudentFile),
     Check(Filled(FormGet(form, "model_answer")) && Filled(FormGet(form, "max_marks")), AnswerAndMarksRequired),
     Check("student_file" in files ==> Config.AllowedFile(files["student_file"].filename), InvalidFileType),
     Check("max_marks" in form ==> ParseInt(form["max_marks"]).Some?, InvalidMaxMarks)]
  }

  /** The route rejects with the message of the first failing check. */
  lemma EvaluateCheckOrder(files: map<string, Pdf.Upload>, form: map<string, string>)
    requires EvaluateRequestCheck(files, form).Err?
    ensures FirstFailure(EvaluateChecks(files, form)) == Some(EvaluateRequestCheck(files, form).error)
  {
    if "student_file" !in files || !Filled(FormGet(form, "model_answer")) || !Filled(FormGet(form, "max_marks")) {
      EvaluateFormRefused(files, form);
    } else {
      EvaluateFileOrMarksRefused(files, form);
    }
  }

  /** A missing file or a missing answer or marks is reported by the first or second check. */
  lemma EvaluateFormRefused(files: map<string, Pdf.Upload>, form: map<string, string>)
    requires "student_file" !in files || !Filled(FormGet(form, "model_answer")) || !Filled(FormGet(form, "max_marks"))
    ensures EvaluateRequestCheck(files, form).Err?
    ensures FirstFailure(EvaluateChecks(files, form)) == Some(EvaluateRequestCheck(files, form).error)
  {
    var checks := EvaluateChecks(files, form);
    if "student_file" !in files {
      FirstFailureAt(checks, 0);
    } else {
      FirstFailureAt(checks, 1);
    }
  }

  /** With the form filled, a refusal is the file type's or the marks' and comes from the third or fourth check. */
  lemma EvaluateFileOrMarksRefused(files: map<string, Pdf.Upload>, form: map<string, string>)
    requires "student_file" in files && Filled(FormGet(form, "model_answer")) && Filled(FormGet(form, "max_marks"))
    requires EvaluateRequestCheck(files, form).Err?
    ensures FirstFailure(EvaluateChecks(files, form)) == Some(EvaluateRequestCheck(files, form).error)
  {
    if !Config.AllowedFile(files["student_file"].filename) {
      EvaluateFileTypeRefused(files, form);
    } else {
      EvaluateMarksRefused(files, form);
    }
  }

  /** A filled form with a disallowed file is refused by the third check. */
  lemma EvaluateFileTypeRefused(files: map<string, Pdf.Upload>, form: map<string, string>)
    requires "student_file" in files && Filled(FormGet(form, "model_answer")) && Filled(FormGet(form, "max_marks"))
    requires !Config.AllowedFile(files["student_file"].filename)
    ensures EvaluateRequestCheck(files, form) == Err(InvalidFileType)
    ensures FirstFailure(EvaluateChecks(files, form)) == Some(InvalidFileType)
  {
    var checks := EvaluateChecks(files, form);
    assert checks[0].passes && checks[1].passes && !checks[2].passes;
    FirstFailureAt(checks, 2);
  }

  /** A filled form with an allowed file whose marks are not an integer is refused by the fourth check. */
  lemma EvaluateMarksRefused(files: map<string, Pdf.Upload>, form: map<string, string>)
    requires "student_file" in files && Filled(FormGet(form, "model_answer")) && Filled(FormGet(form, "max_marks"))
    requires Config.AllowedFile(files["student_file"].filename) && ParseInt(form["max_marks"]).None?
    ensures EvaluateRequestCheck(files, form) == Err(InvalidMaxMarks)
    ensures FirstFailure(EvaluateChecks(files, form)) == Some(InvalidMaxMarks)
  {
    var checks := EvaluateChecks(files, form);
    assert checks[0].passes && checks[1].passes && checks[2].passes && !checks[3].passes;
    FirstFailureAt(checks, 3);
  }

  /** The route accepts exactly when every check passes. */
  lemma EvaluateAcceptsIff(files: map<string, Pdf.Upload>, form: map<string, string>)
    ensures EvaluateRequestCheck(files, form).Ok? <==> FirstFailure(EvaluateChecks(files, form)).None?
  {
    var r := EvaluateRequestCheck(files, form);
    if r.Ok? {
      EvaluateAcceptedPasses(files, form);
    } else {
      EvaluateCheckOrder(files, form);
    }
  }

  /** An accepted request passes every check. */
  lemma EvaluateAcceptedPasses(files: map<string, Pdf.Upload>, form: map<string, string>)
    requires EvaluateRequestCheck(files, form).Ok?
    ensures forall i :: 0 <= i < 4 ==> EvaluateChecks(files, form)[i].passes
  {
    var req := EvaluateRequestCheck(files, form).value;
    assert Filled(FormGet(form, "max_marks"));
  }

  /** `form.get(k)` as the value stored: `None` when absent. */
  function OptValue(o: Option<string>): Value {
    match o
    case None => Null
    case Some(s) => Str(s)
  }

  /** The looked-up name, or the default when no id is given or nothing is found. */
  function LookedUp(id: Option<string>, find: string -> Result<Option<Dict>, string>,
                    key: string, default: Value): Result<Value, string>
  {
    if !Filled(id) then Ok(default)
    else match find(id.value)
      case Err(m) => Err(m)
      case Ok(found) => Ok(if found.Some? && found.value != map[] then Get(found.value, key, default) else default)
  }

  /** Teacher name, student name and roll number stored with the evaluation. */
  function StoredNames(req: EvaluateRequest, findTeacher: string -> Result<Option<Dict>, string>,
                       findStudent: string -> Result<Option<Dict>, string>): Result<(Value, Value, Value), string>
  {
    var teacherName := LookedUp(req.teacherId, findTeacher, "name", Str("Unknown"));
    var studentName := LookedUp(req.studentId, findStudent, "name", Str("Unknown"));
    var rollno := LookedUp(req.studentId, findStudent, "roll_number", Str("N/A"));
    if teacherName.Err? then Err(teacherName.error)
    else if studentName.Err? then Err(studentName.error)
    else Ok((teacherName.value, studentName.value, rollno.value))
  }

  /** Without ids the defaults are stored and no store is consulted. */
  lemma StoredNamesDefaults(req: EvaluateRequest, findTeacher: string -> Result<Option<Dict>, string>,
                            findStudent: string -> Result<Option<Dict>, string>)
    requires !Filled(req.teacherId) && !Filled(req.studentId)
    ensures StoredNames(req, findTeacher, findStudent) == Ok((Str("Unknown"), Str("Unknown"), Str("N/A")))
  {
  }

  /** A given id whose record is not found also leaves the defaults. */
  lemma StoredNamesNotFound(req: EvaluateRequest, findTeacher: string -> Result<Option<Dict>, string>,
                            findStudent: string -> Result<Option<Dict>, string>)
    requires Filled(req.teacherId) && findTeacher(req.teacherId.value) == Ok(None)
    requires Filled(req.studentId) && findStudent(req.studentId.value) == Ok(None)
    ensures StoredNames(req, findTeacher, findStudent) == Ok((Str("Unknown"), Str("Unknown"), Str("N/A")))
  {
  }

  /** A found record's fields replace the defaults. */
  lemma StoredNamesFound(req: EvaluateRequest, findTeacher: string -> Result<Option<Dict>, string>,
                         findStudent: string -> Result<Option<Dict>, string>, t: Dict, s: Dict)
    requires Filled(req.teacherId) && findTeacher(req.teacherId.value) == Ok(Some(t)) && "name" in t
    requires Filled(req.studentId) && findStudent(req.studentId.value) == Ok(Some(s)) && "name" in s && "roll_number" in s
    ensures StoredNames(req, findTeacher, findStudent) == Ok((t["name"], s["name"], s["roll_number"]))
  {
  }

  /** The arguments of `Evaluation.create`. */
  function SubmissionFor(req: EvaluateRequest, names: (Value, Value, Value), studentText: string): ES.Submission {
    ES.Submission(OptValue(req.teacherId), names.0, OptValue(req.studentId), names.1, names.2,
      req.question, req.modelAnswer, req.studentFile.filename, studentText, req.maxMarks)
  }

  /** The scorer's result with `extracted_text` and `evaluation_id` added. */
  function EvaluationResponse(result: Dict, studentText: string, id: Value): (r: Dict)
    ensures r.Keys == result.Keys + {"extracted_text", "evaluation_id"}
    ensures r["extracted_text"] == Str(studentText) && r["evaluation_id"] == Str(PyStr(id))
  {
    result["extracted_text" := Str(studentText)]["evaluation_id" := Str(PyStr(id))]
  }

  /** The response keeps every field of the scorer's result other than the two added ones. */
  lemma EvaluationResponseKeeps(result: Dict, studentText: string, id: Value)
    ensures var r := EvaluationResponse(result, studentText, id);
      forall k :: k in result && k != "extracted_text" && k != "evaluation_id" ==> r[k] == result[k]
  {
  }

  /** The six result fields survive into the response. */
  lemma EvaluationResponseHasResultFields(result: Dict, studentText: string, id: Value)
    requires Gemini.HasResultFields(result)
    ensures Gemini.HasResultFields(EvaluationResponse(result, studentText, id))
  {
  }

  /** `{'success': True, key: value}`. */
  function Success(key: string, v: Value): Value {
    Obj(map["success" := Bool(true), key := v])
  }

  /** The page results the OCR reader gives for the images. */
  function OcrResults(images: seq<Pdf.Image>, readtext: Pdf.Image -> Result<seq<string>, string>): seq<Result<seq<string>, string>> {
    seq(|images|, i requires 0 <= i < |images| => readtext(images[i]))
  }

  /**
   * The processing of an accepted request: the save, the converted pages, their OCR text, the
   * score and the inserted id, or the message of the first step that raised.
   */
  function Pipeline(saveError: Option<string>, cache: Option<Pdf.Reader>, created: Result<Pdf.Reader, string>,
                    converted: Result<seq<Pdf.Image>, string>,
                    readtext: Pdf.Image -> Result<seq<string>, string>,
                    reply: Result<string, string>, parse: string -> Gemini.ParseOutcome,
                    inserted: Result<Value, string>): Result<(string, Dict, Value), string>
  {
    if saveError.Some? then Err(saveError.value) else
    match StudentText(cache, created, converted, readtext)
    case Err(m) => Err(m)
    case Ok(text) =>
      match inserted
      case Err(m) => Err(m)
      case Ok(id) => Ok((text, Gemini.Evaluation(reply, parse), id))
  }

  /** The handwritten text read from the converted pages, or the message of the step that raised. */
  function StudentText(cache: Option<Pdf.Reader>, created: Result<Pdf.Reader, string>,
                       converted: Result<seq<Pdf.Image>, string>,
                       readtext: Pdf.Image -> Result<seq<string>, string>): Result<string, string>
  {
    match Pdf.ConvertPdfToImages(converted)
    case Err(m) => Err(m)
    case Ok(images) => Pdf.ImagesText(cache, created, OcrResults(images, readtext))
  }

  /**
   * The scoring step never fails: only the save, conversion, the OCR reader's construction, OCR
   * and the insert can abort the request, and a failed save is reported with its own message.
   */
  lemma PipelineFailsOnlyOnIo(saveError: Option<string>, cache: Option<Pdf.Reader>, created: Result<Pdf.Reader, string>,
                              converted: Result<seq<Pdf.Image>, string>,
                              readtext: Pdf.Image -> Result<seq<string>, string>,
                              reply: Result<string, string>, parse: string -> Gemini.ParseOutcome,
                              inserted: Result<Value, string>)
    ensures Pipeline(saveError, cache, created, converted, readtext, reply, parse, inserted).Ok? <==>
      saveError.None? && converted.Ok? && Pdf.ReaderFor(cache, created).Ok? &&
      Pdf.OcrText(OcrResults(converted.value, readtext)).Ok? && inserted.Ok?
    ensures saveError.Some? ==> Pipeline(saveError, cache, created, converted, readtext, reply, parse, inserted) == Err(saveError.value)
    ensures Pipeline(saveError, cache, created, converted, readtext, reply, parse, inserted).Ok? ==>
      Pipeline(saveError, cache, created, converted, readtext, reply, parse, inserted).value.1 == Gemini.Evaluation(reply, parse)
    ensures Pipeline(saveError, cache, created, converted, readtext, reply, parse, inserted).Ok? ==>
      Gemini.HasResultFields(Pipeline(saveError, cache, created, converted, readtext, reply, parse, inserted).value.1)
  {
  }

  /**
   * Before any reader exists, one whose construction raises fails a request that was saved and
   * converted, even one whose PDF has no pages.
   */
  lemma ReaderFailureFailsRequest(m: string, readtext: Pdf.Image -> Result<seq<string>, string>,
                                  reply: Result<string, string>, parse: string -> Gemini.ParseOutcome,
                                  inserted: Result<Value, string>)
    ensures Pipeline(None, None, Err(m), Ok([]), readtext, reply, parse, inserted) ==
      Err("Error extracting text from images: " + m)
  {
  }

  /** Writing a file and removing it leaves the other files as they were. */
  lemma SaveThenRemove(files: map<string, string>, path: string, content: string)
    ensures files[path := content] - {path} == files - {path}
  {
  }

  // ---------------------------------------------------------------- listings

  /** `request.args.get('limit', default, type=int)`: a value `int()` rejects falls back to the default. */
  function LimitArg(args: map<string, string>, default: int): (r: int)
    ensures "limit" !in args ==> r == default
    ensures "limit" in args && ParseInt(args["limit"]).None? ==> r == default
    ensures "limit" in args && ParseInt(args["limit"]).Some? ==> r == ParseInt(args["limit"]).value
  {
    if "limit" in args then ParseInt(args["limit"]).GetOr(default) else default
  }

  /** A limit the client writes into the query string is the limit the route uses. */
  lemma LimitArgRoundTrip(n: int, default: int)
    ensures LimitArg(map["limit" := IntToString(n)], default) == n
  {
    ParseIntToString(n);
  }

  /** The stored documents as the driver returns them. */
  function Documents(rs: seq<ES.Record>): (r: seq<Value>)
    ensures |r| == |rs|
  {
    seq(|rs|, i requires 0 <= i < |rs| => Obj(ES.ToDict(rs[i])))
  }

  /** `{'success': True, 'evaluations': serialize_doc(list), 'count': len(list)}`. */
  function ListBody(rs: seq<ES.Record>): Value {
    Obj(map["success" := Bool(true), "evaluations" := SerializeDoc(Arr(Documents(rs))), "count" := Num(|rs|)])
  }

  /** The count is the number of listed evaluations. */
  lemma ListBodyCount(rs: seq<ES.Record>)
    ensures var b := ListBody(rs).fields;
      b["evaluations"].Arr? && b["count"] == Num(|b["evaluations"].items|) && |b["evaluations"].items| == |rs|
  {
  }

  /** `get_all_evaluations`: `[]` when there are none, else every document serialized. */
  function AllEvaluations(rs: seq<ES.Record>): Response {
    if rs == [] then Response(200, Arr([]))
    else Response(200, Arr(seq(|rs|, i requires 0 <= i < |rs| => SerializeDoc(Obj(ES.ToDict(rs[i]))))))
  }

  /** The empty case is the general one: the listing is always the serialized documents. */
  lemma AllEvaluationsUniform(rs: seq<ES.Record>)
    ensures AllEvaluations(rs) == Response(200, SerializeDoc(Arr(Documents(rs))))
  {
  }

  /** `get_student_statistics`: missing statistics give all-zero totals. */
  function StudentStatistics(stats: Result<Value, string>): (r: Response)
    ensures stats.Err? <==> r.status == 500
    ensures stats.Ok? && !PyTruthy(stats.value) ==>
      r == Response(200, Success("statistics", Obj(map["total_evaluations" := Num(0), "average_marks" := Num(0), "average_percentage" := Num(0)])))
    ensures stats.Ok? && PyTruthy(stats.value) ==> r == Response(200, Success("statistics", SerializeDoc(stats.value)))
  {
    match stats
    case Err(m) => Error(500, m)
    case Ok(s) =>
      if !PyTruthy(s) then
        Response(200, Success("statistics", Obj(map["total_evaluations" := Num(0), "average_marks" := Num(0), "average_percentage" := Num(0)])))
      else Response(200, Success("statistics", SerializeDoc(s)))
  }

  // ---------------------------------------------------------------- the routes over modelled state

  /** The body `upload_model_answer` answers with when the text was read. */
  function ModelAnswerBody(text: string): Value {
    Obj(map["success" := Bool(true), "model_answer" := Str(text), "message" := Str("Model answer uploaded successfully")])
  }

  /** The server's upload folder, file processor and evaluation collection. */
  class Backend {
    const uploadFolder: string
    const pdf: Pdf.PdfProcessor
    const evaluations: ES.EvaluationCollection

    constructor(uploadFolder0: string, pdf0: Pdf.PdfProcessor, evaluations0: ES.EvaluationCollection)
      ensures uploadFolder == uploadFolder0 && pdf == pdf0 && evaluations == evaluations0
    {
      uploadFolder := uploadFolder0;
      pdf := pdf0;
      evaluations := evaluations0;
    }

    /**
     * `upload_model_answer`: the checks, then save, read the text, remove the file. A failed
     * save is a 500 with its own message; a failed read leaves the saved file behind. `accepts`
     * is the extension check: `Config.AllowedFile` as written, which lets an image through to
     * the PDF reader, or `IsPdfName` as intended.
     */
    method UploadModelAnswer(files: map<string, Pdf.Upload>, accepts: string -> bool, io: Pdf.SaveOutcome,
                             reader: Result<seq<string>, string>) returns (r: Response)
      modifies pdf
      ensures UploadCheck(files, accepts).Some? ==>
        r == Error(400, UploadCheck(files, accepts).value) && pdf.files == old(pdf.files) && pdf.folders == old(pdf.folders)
      ensures UploadCheck(files, accepts).None? ==>
        var path := Pdf.JoinPath(uploadFolder, files["file"].filename);
        var saveError := Pdf.SaveError(old(pdf.folders), uploadFolder, io);
        pdf.folders == Pdf.FoldersAfterSave(old(pdf.folders), uploadFolder, io) &&
        (saveError.Some? ==> r == Error(500, saveError.value) && pdf.files == old(pdf.files)) &&
        (saveError.None? && reader.Ok? ==>
           r == Response(200, ModelAnswerBody(Strip(Pdf.PagesText(reader.value)))) &&
           pdf.files == old(pdf.files) - {path}) &&
        (saveError.None? && reader.Err? ==>
           r == Error(500, "Error extracting text from PDF: " + reader.error) &&
           pdf.files == old(pdf.files)[path := files["file"].content])
      ensures pdf.ocrReader == old(pdf.ocrReader) && pdf.readersCreated == old(pdf.readersCreated)
    {
      var refusal := UploadCheck(files, accepts);
      if refusal.Some? {
        return Error(400, refusal.value);
      }
      var file := files["file"];
      var saved := pdf.SaveUploadedFile(file, uploadFolder, io);
      if saved.Err? {
        return Error(500, saved.error);
      }
      var filePath := saved.value;
      var text := Pdf.ExtractTextFromPdf(reader);
      if text.Err? {
        return Error(500, text.error);
      }
      var _ := pdf.RemoveFile(filePath);
      SaveThenRemove(old(pdf.files), filePath, file.content);
      return Response(200, ModelAnswerBody(text.value));
    }

    /**
     * `evaluate_answer` once its checks and lookups have passed: save, convert, read,
     * score, store, add `extracted_text` and `evaluation_id`, and remove the file. A failed
     * save writes nothing; any exception after the save leaves the file behind. Neither
     * stores anything.
     */
    method Process(req: EvaluateRequest, names: (Value, Value, Value), io: Pdf.SaveOutcome,
                   converted: Result<seq<Pdf.Image>, string>,
                   readtext: Pdf.Image -> Result<seq<string>, string>, created: Result<Pdf.Reader, string>,
                   reply: Result<string, string>, parse: string -> Gemini.ParseOutcome,
                   createdAt: int, updatedAt: int, inserted: Result<Value, string>)
      returns (r: Response)
      requires pdf.Valid()
      modifies pdf, evaluations
      ensures pdf.Valid() && pdf.folders == Pdf.FoldersAfterSave(old(pdf.folders), uploadFolder, io)
      ensures pdf.ocrReader ==
        if Pdf.SaveError(old(pdf.folders), uploadFolder, io).None? && converted.Ok?
        then Pdf.CacheAfter(old(pdf.ocrReader), created) else old(pdf.ocrReader)
      ensures var saveError := Pdf.SaveError(old(pdf.folders), uploadFolder, io);
              var cache := old(pdf.ocrReader);
              Pipeline(saveError, cache, created, converted, readtext, reply, parse, inserted).Err? ==>
                r == Error(500, Pipeline(saveError, cache, created, converted, readtext, reply, parse, inserted).error) &&
                evaluations.docs == old(evaluations.docs) &&
                pdf.files == if saveError.Some? then old(pdf.files)
                             else old(pdf.files)[Pdf.JoinPath(uploadFolder, req.studentFile.filename) := req.studentFile.content]
      ensures Pipeline(Pdf.SaveError(old(pdf.folders), uploadFolder, io), old(pdf.ocrReader), created, converted, readtext, reply, parse, inserted).Ok? ==>
        var (text, result, id) := Pipeline(Pdf.SaveError(old(pdf.folders), uploadFolder, io), old(pdf.ocrReader), created, converted, readtext, reply, parse, inserted).value;
        evaluations.docs == old(evaluations.docs) + [ES.NewRecord(id, SubmissionFor(req, names, text), result, createdAt, updatedAt)] &&
        r == Response(200, Success("evaluation", Obj(EvaluationResponse(result, text, id)))) &&
        pdf.files == old(pdf.files) - {Pdf.JoinPath(uploadFolder, req.studentFile.filename)}
    {
      var saved := pdf.SaveUploadedFile(req.studentFile, uploadFolder, io);
      if saved.Err? {
        return Error(500, saved.error);
      }
      r := ProcessSaved(req, names, saved.value, converted, readtext, created, reply, parse, createdAt, updatedAt, inserted);
      SaveThenRemove(old(pdf.files), saved.value, req.studentFile.content);
    }

    /**
     * `evaluate_answer` after the student's file is saved at `path`: convert, read, score,
     * store, add `extracted_text` and `evaluation_id`, and remove the file. Any exception
     * leaves the file behind and stores nothing.
     */
    method ProcessSaved(req: EvaluateRequest, names: (Value, Value, Value), path: string,
                        converted: Result<seq<Pdf.Image>, string>,
                        readtext: Pdf.Image -> Result<seq<string>, string>, created: Result<Pdf.Reader, string>,
                        reply: Result<string, string>, parse: string -> Gemini.ParseOutcome,
                        createdAt: int, updatedAt: int, inserted: Result<Value, string>)
      returns (r: Response)
      requires pdf.Valid() && path in pdf.files
      modifies pdf, evaluations
      ensures pdf.Valid() && pdf.folders == old(pdf.folders)
      ensures pdf.ocrReader == if converted.Ok? then Pdf.CacheAfter(old(pdf.ocrReader), created) else old(pdf.ocrReader)
      ensures var pipeline := Pipeline(None, old(pdf.ocrReader), created, converted, readtext, reply, parse, inserted);
              pipeline.Err? ==>
                r == Error(500, pipeline.error) && evaluations.docs == old(evaluations.docs) && pdf.files == old(pdf.files)
      ensures var pipeline := Pipeline(None, old(pdf.ocrReader), created, converted, readtext, reply, parse, inserted);
              pipeline.Ok? ==>
                var (text, result, id) := pipeline.value;
                evaluations.docs == old(evaluations.docs) + [ES.NewRecord(id, SubmissionFor(req, names, text), result, createdAt, updatedAt)] &&
                r == Response(200, Success("evaluation", Obj(EvaluationResponse(result, text, id)))) &&
                pdf.files == old(pdf.files) - {path}
    {
      ghost var pipeline := Pipeline(None, old(pdf.ocrReader), created, converted, readtext, reply, parse, inserted);
      var studentText := ReadStudentText(converted, readtext, created);
      if studentText.Err? {
        assert pipeline == Err(studentText.error);
        return Error(500, studentText.error);
      }
      var evaluationResult := Gemini.EvaluateAnswer(reply, parse);
      if inserted.Err? {
        assert pipeline == Err(inserted.error);
        return Error(500, inserted.error);
      }
      assert pipeline == Ok((studentText.value, evaluationResult, inserted.value));
      var evaluationDoc := evaluations.Create(SubmissionFor(req, names, studentText.value),
        evaluationResult, createdAt, updatedAt, inserted.value);
      evaluationResult := evaluationResult["extracted_text" := Str(studentText.value)];
      evaluationResult := evaluationResult["evaluation_id" := Str(PyStr(evaluationDoc.id))];
      var _ := pdf.RemoveFile(path);
      return Response(200, Success("evaluation", Obj(evaluationResult)));
    }

    /** Convert the saved PDF to page images and read them with the OCR reader. */
    method ReadStudentText(converted: Result<seq<Pdf.Image>, string>,
                           readtext: Pdf.Image -> Result<seq<string>, string>, created: Result<Pdf.Reader, string>)
      returns (r: Result<string, string>)
      requires pdf.Valid()
      modifies pdf
      ensures pdf.Valid() && pdf.folders == old(pdf.folders) && pdf.files == old(pdf.files)
      ensures pdf.ocrReader == if converted.Ok? then Pdf.CacheAfter(old(pdf.ocrReader), created) else old(pdf.ocrReader)
      ensures r == StudentText(old(pdf.ocrReader), created, converted, readtext)
    {
      var images := Pdf.ConvertPdfToImages(converted);
      if images.Err? {
        return Err(images.error);
      }
      r := pdf.ExtractTextFromImages(images.value, readtext, created);
      assert OcrResults(images.value, readtext) == seq(|images.value|, i requires 0 <= i < |images.value| => readtext(images.value[i]));
    }

    /** `evaluate_answer`: the checks (400), the name lookups (500), then the processing. */
    method EvaluateAnswer(files: map<string, Pdf.Upload>, form: map<string, string>,
                          findTeacher: string -> Result<Option<Dict>, string>,
                          findStudent: string -> Result<Option<Dict>, string>, io: Pdf.SaveOutcome,
                          converted: Result<seq<Pdf.Image>, string>,
                          readtext: Pdf.Image -> Result<seq<string>, string>, created: Result<Pdf.Reader, string>,
                          reply: Result<string, string>, parse: string -> Gemini.ParseOutcome,
                          createdAt: int, updatedAt: int, inserted: Result<Value, string>)
      returns (r: Response)
      requires pdf.Valid()
      modifies pdf, evaluations
      ensures pdf.Valid()
      ensures r.status != 200 ==> evaluations.docs == old(evaluations.docs)
      ensures EvaluateRequestCheck(files, form).Err? ==>
        r == Error(400, EvaluateRequestCheck(files, form).error) &&
        pdf.files == old(pdf.files) && pdf.folders == old(pdf.folders)
      ensures EvaluateRequestCheck(files, form).Ok? ==>
        var req := EvaluateRequestCheck(files, form).value;
        match StoredNames(req, findTeacher, findStudent)
        case Err(m) => r == Error(500, m) && pdf.files == old(pdf.files) && pdf.folders == old(pdf.folders)
        case Ok(names) =>
          var path := Pdf.JoinPath(uploadFolder, req.studentFile.filename);
          var saveError := Pdf.SaveError(old(pdf.folders), uploadFolder, io);
          var cache := old(pdf.ocrReader);
          pdf.folders == Pdf.FoldersAfterSave(old(pdf.folders), uploadFolder, io) &&
          (r.status == 200 <==> Pipeline(saveError, cache, created, converted, readtext, reply, parse, inserted).Ok?) &&
          (r.status == 200 ==>
            var (text, result, id) := Pipeline(saveError, cache, created, converted, readtext, reply, parse, inserted).value;
            evaluations.docs == old(evaluations.docs) + [ES.NewRecord(id, SubmissionFor(req, names, text), result, createdAt, updatedAt)] &&
            r.body == Success("evaluation", Obj(EvaluationResponse(result, text, id))) &&
            pdf.files == old(pdf.files) - {path}) &&
          (r.status != 200 ==>
            r == Error(500, Pipeline(saveError, cache, created, converted, readtext, reply, parse, inserted).error) &&
            pdf.files == if saveError.Some? then old(pdf.files) else old(pdf.files)[path := req.studentFile.content])
      ensures pdf.ocrReader ==
        if EvaluateRequestCheck(files, form).Ok? && StoredNames(EvaluateRequestCheck(files, form).value, findTeacher, findStudent).Ok? &&
           Pdf.SaveError(old(pdf.folders), uploadFolder, io).None? && converted.Ok?
        then Pdf.CacheAfter(old(pdf.ocrReader), created) else old(pdf.ocrReader)
    {
      var check := EvaluateRequestCheck(files, form);
      if check.Err? {
        return Error(400, check.error);
      }
      var req := check.value;
      var names := StoredNames(req, findTeacher, findStudent);
      if names.Err? {
        return Error(500, names.error);
      }
      r := Process(req, names.value, io, converted, readtext, created, reply, parse, createdAt, updatedAt, inserted);
    }

    /**
     * `get_student_evaluations`: the listing body of the student's newest records, as many as
     * the `limit` argument (10 by default) allows.
     */
    function StudentEvaluations(studentId: string, args: map<string, string>): (r: Response)
      reads this, evaluations
      ensures exists rs :: ES.NewestLimited(ES.Matches(evaluations.docs, ES.StudentId, Str(studentId)), LimitArg(args, ES.StudentLimit), rs) &&
                           r == Response(200, ListBody(rs))
    {
      var rs := evaluations.FindByStudent(Str(studentId), LimitArg(args, ES.StudentLimit));
      Response(200, ListBody(rs))
    }

    /** `get_teacher_evaluations`: the same over the teacher's records. */
    function TeacherEvaluations(teacherId: string, args: map<string, string>): (r: Response)
      reads this, evaluations
      ensures exists rs :: ES.NewestLimited(ES.Matches(evaluations.docs, ES.TeacherId, Str(teacherId)), LimitArg(args, ES.TeacherLimit), rs) &&
                           r == Response(200, ListBody(rs))
    {
      var rs := evaluations.FindByTeacher(Str(teacherId), LimitArg(args, ES.TeacherLimit));
      Response(200, ListBody(rs))
    }

    /** `get_recent_evaluations`: the newest records of the whole collection, 20 by default. */
    function RecentEvaluations(args: map<string, string>): (r: Response)
      reads this, evaluations
      ensures exists rs :: ES.NewestLimited(evaluations.docs, LimitArg(args, ES.RecentLimit), rs) &&
                           r == Response(200, ListBody(rs))
    {
      var rs := evaluations.Recent(LimitArg(args, ES.RecentLimit));
      Response(200, ListBody(rs))
    }

    /** `get_all_evaluations`: every record, newest first, serialized. */
    function AllEvaluationsRoute(): (r: Response)
      reads this, evaluations
      ensures exists rs :: multiset(rs) == multiset(evaluations.docs) && ES.NewestFirst(rs) &&
                           r == Response(200, SerializeDoc(Arr(Documents(rs))))
    {
      var rs := evaluations.GetAll();
      AllEvaluationsUniform(rs);
      AllEvaluations(rs)
    }

    /** `delete_evaluation`: 404 exactly when nothing was deleted; a malformed id is a 500. */
    method DeleteEvaluation(evaluationId: string) returns (r: Response)
      modifies evaluations
      ensures ParseOid(evaluationId).None? ==> r == Error(500, ES.InvalidIdMessage(evaluationId)) && evaluations.docs == old(evaluations.docs)
      ensures ParseOid(evaluationId).Some? ==>
        (r.status == 404 <==> forall d :: d in old(evaluations.docs) ==> d.id != ParseOid(evaluationId).value)
      ensures ParseOid(evaluationId).Some? ==>
        ES.DeletedOne(old(evaluations.docs), ParseOid(evaluationId).value, if r.status == 404 then 0 else 1, evaluations.docs)
      ensures r.status == 404 ==> r == Error(404, "Evaluation not found") && evaluations.docs == old(evaluations.docs)
      ensures r.status != 404 && r.status != 500 ==>
        r == Response(200, Obj(map["success" := Bool(true), "message" := Str("Evaluation deleted successfully")])) &&
        |evaluations.docs| == |old(evaluations.docs)| - 1
    {
      var result := evaluations.Delete(evaluationId);
      if result.Err? {
        return Error(500, result.error);
      }
      ES.DeleteRemovesAtMostOne(old(evaluations.docs), ParseOid(evaluationId).value, result.value, evaluations.docs);
      if result.value == 0 {
        return Error(404, "Evaluation not found");
      }
      return Response(200, Obj(map["success" := Bool(true), "message" := Str("Evaluation deleted successfully")]));
    }
  }

  /** A listed page of a student's evaluations holds only that student's, at most `limit` of them. */
  lemma StudentListingBounded(store: ES.EvaluationCollection, studentId: string, args: map<string, string>)
    ensures var rs := store.FindByStudent(Str(studentId), LimitArg(args, ES.StudentLimit));
      |rs| <= ES.Abs(LimitArg(args, ES.StudentLimit)) || LimitArg(args, ES.StudentLimit) == 0
    ensures "limit" !in args ==> |store.FindByStudent(Str(studentId), LimitArg(args, ES.StudentLimit))| <= 10
  {
  }
}
