# AI Examiner, modelled in Dafny

AI Examiner grades a student's handwritten or typed answer against a model answer. A teacher
uploads the model answer, as a PDF or pasted text, and the student's answer, as a PDF or an image.
The back end (Flask) extracts the student's text with PyPDF2 or EasyOCR, asks Gemini for marks,
strengths, missing points, feedback and a grade, and stores the result in MongoDB. It also keeps
teachers and students. The React front end drives this through a step-by-step evaluation page
and an older single-page evaluator. A management page keeps the teacher and student lists, and a
history page filters, inspects, deletes and prints past evaluations.

This project models the logic of those pieces that decides or shapes something. External services
are inputs: the HTTP client, Flask's request, MongoDB, Gemini, the PDF and OCR libraries, the file
system, the clock and the browser's `confirm`. Each request's outcome is a `Result` value handed to
the code that awaits it.

| module | file | models |
|---|---|---|
| `Wrappers` | wrappers.dfy | `Option` and `Result` |
| `Text` | text.dfy | strip/trim, lower-casing, substring search, splitting and joining, decimal text of integers, `int()` |
| `Seqs` | seqs.dfy | filtering, subsequences, first-occurrence de-duplication, `limit`, ordered validation ladders |
| `Json` | json.dfy | JSON and BSON values, Python and JavaScript truthiness, `dict.get`, `setdefault`, `ObjectId` |
| `Config` | config.dfy | `Config` and `allowed_file` (backend/config.py) |
| `DbConnection` | db.dfy | the `DatabaseConnection` singleton and its connect-once state (backend/utils/db_connection.py) |
| `EvaluationStore` | evaluation_store.dfy | `Evaluation.create` and the queries of backend/models/evaluation.py over an in-memory collection |
| `Gemini` | gemini.dfy | post-processing of the model's reply in backend/utils/gemini_service.py |
| `Pdf` | pdf.dfy | text assembly, path building and the lazy OCR reader of backend/utils/pdf_processor.py |
| `Routes` | routes.dfy | `serialize_doc` and the route ladders and response shapes of backend/app.py |
| `Api` | api.dfy | the request bodies and URLs of frontend/src/services/api.js |
| `Frontend` | frontend.dfy | what the pages share: failed-request errors, response properties, removal by `_id` |
| `Management` | management.dfy | frontend/src/pages/Management.jsx |
| `EvaluatePage` | evaluate_page.dfy | frontend/src/pages/Evaluate.jsx |
| `ExamEvaluator` | exam_evaluator.dfy | frontend/src/components/ExamEvaluator.jsx |
| `History` | history.dfy | frontend/src/pages/EvaluationHistory.jsx |

Each component whose state the source updates in place is a class with that state as fields:
the four React pages and components, `DatabaseConnection`, the OCR reader cache in `PDFProcessor`,
the `evaluations` collection and the route handlers' server. Beside each class is a datatype
holding the whole state (`State()`) and a pure transition function per handler. Each handler
method ensures that its new state is its transition applied to the old state. The lemmas about
the transitions state what the source promises: validation order, what is appended or removed,
and what is kept.

Where the code and its documentation disagree, the model follows the code:

- `Evaluate.jsx` never reaches its step 3; it navigates to the results page instead (`EvaluatePage.StepStaysReachable`).
- Nothing discards a late response, and there is no in-flight guard beyond disabled buttons (`ExamEvaluator.LateResponseOverridesReset`).
- The history page's "month" range is one calendar month back, through `setMonth`, and not 30 days. Here it is an input bound (`History.DateBound`).

## Model

| member | source | states |
|---|---|---|
| Json.TruthinessDiffers | backend/app.py:76-77 | Python and JavaScript truthiness differ exactly on an empty list and an empty object |
| Json.Get | backend/app.py:72-74 | `d.get(k, default)` is the stored value for a present key and the default otherwise |
| Json.SetDefault | backend/utils/gemini_service.py:73-78 | `setdefault` keeps every existing entry, adds the key only when absent, and then holds it |
| Json.ParseOid | backend/models/evaluation.py:88 | `ObjectId(s)` succeeds exactly on 24 hexadecimal digits and yields a well-formed id |
| Json.ParseOidText | backend/app.py:45 | the text form of a stored id parses back to the same id |
| Json.PyStrOfText | backend/app.py:45 | `str()` of a text is the text itself, and of an ObjectId its hexadecimal digits |
| Text.Strip | backend/utils/pdf_processor.py:35 | `strip()` is never longer, has no outer whitespace, and is empty exactly for a blank text |
| Text.StripCutsEnds | backend/utils/pdf_processor.py:35 | `strip()` is the slice of the text between a whitespace-only head and a whitespace-only tail |
| Text.Lower | frontend/src/pages/EvaluationHistory.jsx:70 | `toLowerCase()` keeps the length and lowers each letter in place |
| Text.Split | frontend/src/pages/EvaluationHistory.jsx:462 | `split('\n')` yields at least one part and no part holds the separator |
| Text.ParseIntToString | backend/app.py:278 | `int()` reads back every integer's decimal text |
| Seqs.Distinct | frontend/src/pages/EvaluationHistory.jsx:43 | `[...new Set(xs)]` holds exactly the elements of xs, each once |
| Config.Extension | backend/config.py:24-25 | `rsplit('.', 1)[1]`: present exactly when the name has a dot; holds no dot, and is the suffix after the last dot |
| Config.ExtensionOf | backend/config.py:25 | a name built as base + "." + ext (ext without a dot) has extension ext |
| Config.AllowedFileIff | backend/config.py:16-25 | a file is accepted iff it has a dot and its lower-cased last extension is pdf, png, jpg or jpeg |
| Config.NoDotRejected | backend/config.py:24 | a name without a dot is rejected |
| Config.LastDotDecides | backend/config.py:25 | only the text after the last dot counts: `a.tar.pdf` is accepted |
| Config.InnerExtensionIgnored | backend/config.py:25 | an allowed extension before the last dot does not help: `a.pdf.exe` is rejected |
| Config.UpperCaseAccepted | backend/config.py:25 | the comparison ignores case: `X.PDF` is accepted |
| Config.TrailingDotRejected | backend/config.py:24-25 | a trailing dot gives an empty extension, which is rejected |
| DbConnection.ConfiguredDbName | backend/config.py:20 | `MONGO_DB_NAME` is the environment's value when set, else `'ai_examiner'` |
| DbConnection.DbName | backend/utils/db_connection.py:47-51 | the database name is never empty, and a non-empty configured name wins over the URI |
| DbConnection.DbNameFromUri | backend/utils/db_connection.py:48-49 | with no configured name, `prefix/name?query` names the database `name` |
| DbConnection.DbNameEmptyPath | backend/utils/db_connection.py:48-51 | with no configured name, a URI ending in `/` falls back to `'ai_examiner'` |
| DbConnection.ConnectKeepsValid | backend/utils/db_connection.py:23-77 | `connect()` keeps the invariant that a connected instance holds a client and a handle on it |
| DbConnection.ConnectedOnlyAfterPing | backend/utils/db_connection.py:25-60 | after `connect()` the instance is connected iff it was already or a URI was set, a client was made and the ping answered; connected iff the call succeeded, and the result is then the stored handle |
| DbConnection.ConnectCached | backend/utils/db_connection.py:25-26 | once connected, `connect()` and `get_db()` change nothing and return the same handle whatever the environment or network |
| DbConnection.GetDbIsConnect | backend/utils/db_connection.py:98-102 | under the invariant, `get_db()` behaves exactly as `connect()` |
| DbConnection.FailureRetries | backend/utils/db_connection.py:32-77 | a failed `connect()` leaves the instance unconnected, so a later call with a working server connects |
| DbConnection.DatabaseConnection.constructor | backend/utils/db_connection.py:9-21 | a new instance starts unconnected with no client and no handle |
| DbConnection.DatabaseConnection.Connect | backend/utils/db_connection.py:23-77 | the instance's new state and the result are `ConnectStep` of the old state and the inputs, and the invariant holds |
| DbConnection.DatabaseConnection.GetDb | backend/utils/db_connection.py:98-102 | the new state and result are `GetDbStep` of the old state, and the invariant holds |
| DbConnection.DatabaseConnectionClass.constructor | backend/utils/db_connection.py:9 | no shared instance exists before the first construction |
| DbConnection.DatabaseConnectionClass.New | backend/utils/db_connection.py:14-17 | `DatabaseConnection()` returns the existing shared instance, or makes a fresh unconnected one and keeps it |
| EvaluationStore.InsertByDate | backend/models/evaluation.py:50 | one insertion step of the newest-first sort: the result is the input plus the new record, as a multiset |
| EvaluationStore.InsertAfterHead | backend/models/evaluation.py:50 | a record placed after the head of a newest-first list lands among records no newer than that head |
| EvaluationStore.InsertByDateSorted | backend/models/evaluation.py:50 | inserting into a newest-first list keeps it newest first |
| EvaluationStore.SortNewestFirst | backend/models/evaluation.py:50 | `.sort('created_at', -1)` returns a permutation of the records that is newest first |
| EvaluationStore.Limit | backend/models/evaluation.py:51 | `.limit(n)` is a prefix: everything for 0, otherwise at most the absolute value of n records |
| EvaluationStore.NewestFirstPrefix | backend/models/evaluation.py:50-51 | a prefix of a newest-first list is newest first, so limiting after sorting keeps the order |
| EvaluationStore.SortLimitIsNewestLimited | backend/models/evaluation.py:50-51 | sorting newest first and then limiting yields a newest-limited selection, whatever the order of ties |
| EvaluationStore.NewestLimitedContents | backend/models/evaluation.py:47-58 | a newest-limited selection is newest first, drawn from the matches, holds min(count, limit) records (all of them for 0 or a large enough limit), and no record it leaves out is newer than one it keeps |
| EvaluationStore.FindByContract | backend/models/evaluation.py:47-58 | every record an equality query returns matches and is stored; the results are newest first and at most `limit` |
| EvaluationStore.FindByComplete | backend/models/evaluation.py:47-58 | with no limit, or with fewer matches than the limit, every matching record is returned |
| EvaluationStore.IndexOfId | backend/models/evaluation.py:88 | the first position whose `_id` is the given id, or None when no record has it |
| EvaluationStore.EvaluationCollection.constructor | backend/models/evaluation.py:7-9 | the collection holds the given documents |
| EvaluationStore.EvaluationCollection.Create | backend/models/evaluation.py:12-39 | the record built from the submission, the scorer's fields with their defaults and the two timestamps is appended and returned with its id |
| EvaluationStore.EvaluationCollection.FindByStudent | backend/models/evaluation.py:47-51 | the result is the first `limit` records of some newest-first ordering of exactly the records with that student id; every result matches and is stored |
| EvaluationStore.EvaluationCollection.FindByTeacher | backend/models/evaluation.py:54-58 | the result is the first `limit` records of some newest-first ordering of exactly the records with that teacher id; every result matches and is stored |
| EvaluationStore.EvaluationCollection.Recent | backend/models/evaluation.py:79-83 | the result is the first `limit` records of some newest-first ordering of the whole collection: newest first, drawn from the collection, exactly min(count, limit) of them |
| EvaluationStore.EvaluationCollection.GetAll | backend/models/evaluation.py:91-93 | every stored record exactly once, newest first |
| EvaluationStore.EvaluationCollection.Delete | backend/models/evaluation.py:86-88 | a malformed id raises and changes nothing; otherwise the first record with the id, if any, is removed and the count returned |
| EvaluationStore.DeleteRemovesAtMostOne | backend/models/evaluation.py:88 | `delete_one` removes at most one record: none exactly when no record has the id, else one carrying it; the rest keep their order |
| EvaluationStore.NewRecordKeepsIds | backend/models/evaluation.py:16-39 | the stored document carries the inserted `_id` and the teacher and student ids as passed |
| EvaluationStore.NewRecordKeepsNames | backend/models/evaluation.py:18-21 | the teacher name, student name and roll number are stored as passed |
| EvaluationStore.NewRecordKeepsTexts | backend/models/evaluation.py:22-33 | question, model answer, student answer, extracted text and max marks are stored as passed, with the creation time |
| EvaluationStore.NewRecordScores | backend/models/evaluation.py:27-32 | `marks_awarded` is stored under `marks` (default 0) and no `marks_awarded` key is stored; percentage 0, grade N/A, empty lists and empty feedback are the defaults |
| Gemini.QuestionContext | backend/utils/gemini_service.py:16 | the question line is empty exactly when there is no question, else `"\n\nQuestion: " + question` |
| Gemini.SkipSpace | backend/utils/gemini_service.py:65 | `\s*`: the next non-whitespace index, with only whitespace skipped |
| Gemini.FirstClose | backend/utils/gemini_service.py:65 | the lazy `.*?\}\s*```` part: the first `}` followed by optional whitespace and a closing fence, and no earlier one |
| Gemini.FenceAt | backend/utils/gemini_service.py:65 | a match starting at an index begins with a fence, and its group is a `{`…`}` text |
| Gemini.FindFenceFromSpec | backend/utils/gemini_service.py:65 | `re.search` returns the group matched at some index, and nothing exactly when no index matches |
| Gemini.FindFence | backend/utils/gemini_service.py:65-67 | an extracted object starts with `{` and ends with `}` |
| Gemini.NoBacktickNoFence | backend/utils/gemini_service.py:65-66 | a reply without a backtick holds no fenced block |
| Gemini.FenceRoundTrip | backend/utils/gemini_service.py:65-67 | the object of a reply ```` ```json\n{...}\n``` ```` is extracted exactly |
| Gemini.DefaultKeysDistinct | backend/utils/gemini_service.py:73-78 | the six `setdefault` calls use six different keys |
| Gemini.FillDefaultsKeeps | backend/utils/gemini_service.py:73-78 | `setdefault` never changes a field the object has, and each call's key is present afterwards |
| Gemini.FillDefaultsAddsOnlyDefaults | backend/utils/gemini_service.py:73-78 | the calls add no key other than the six default keys |
| Gemini.FillDefaultsStep | backend/utils/gemini_service.py:73-78 | each further `setdefault` call extends the fill by one field |
| Gemini.FillDefaultsValue | backend/utils/gemini_service.py:73-78 | a field the decoded object lacks gets its default value |
| Gemini.Outcome | backend/utils/gemini_service.py:70-100 | whatever the decoder returns, the result carries all six result fields |
| Gemini.Evaluation | backend/utils/gemini_service.py:58-100 | every reply, and every failed model call, yields a result with all six fields |
| Gemini.EvaluateAnswer | backend/utils/gemini_service.py:58-100 | the step-by-step post-processing returns exactly `Evaluation` of the reply |
| Gemini.FromParsed | backend/utils/gemini_service.py:70-91 | the decoder's outcome becomes the fallback or the object with defaults, as `Outcome` says |
| Gemini.SetDefaults | backend/utils/gemini_service.py:73-78 | the six calls in order give the object filled with all six defaults |
| Gemini.ParsedObjectKept | backend/utils/gemini_service.py:70-80 | a decoded object keeps all its fields, gains each missing result field at its default, and gains nothing else |
| Gemini.DecodeErrorFallback | backend/utils/gemini_service.py:82-91 | invalid JSON scores 0 with grade N/A and the two fixed list entries, quoting at most the first 200 characters of the decoded text |
| Gemini.NotAnObjectFallback | backend/utils/gemini_service.py:73-100 | a decoded value that is not an object fails at `setdefault` and scores 0 with empty lists and an "Error during evaluation: " message |
| Gemini.ModelCallFailure | backend/utils/gemini_service.py:60-100 | a failed model call scores 0 with empty lists and reports the exception's message |
| Gemini.UnfencedReplyDecodedWhole | backend/utils/gemini_service.py:62-70 | a reply without a backtick is decoded whole after stripping |
| Gemini.FencedReplyDecodesObject | backend/utils/gemini_service.py:62-70 | a fenced reply has only its object decoded |
| Pdf.PagesTextIsJoin | backend/utils/pdf_processor.py:32-34 | the accumulated text is the pages joined by newlines, with one newline after the last page |
| Pdf.JoinAppend | backend/utils/pdf_processor.py:34 | appending one more page and its newline extends the accumulated text by exactly that |
| Pdf.PagesTextSplit | backend/utils/pdf_processor.py:32-34 | splitting the accumulated text on newlines gives the pages back, then an empty tail |
| Pdf.ExtractTextFromPdf | backend/utils/pdf_processor.py:28-37 | the stripped text of the pages, or the reader's failure wrapped as "Error extracting text from PDF: " |
| Pdf.BlankPagesGiveEmptyText | backend/utils/pdf_processor.py:32-35 | a PDF with no pages or only blank pages yields the empty text |
| Pdf.BlankPagesText | backend/utils/pdf_processor.py:32-34 | the accumulated text of blank pages is blank |
| Pdf.PageText | backend/utils/pdf_processor.py:68 | a page where OCR read nothing shows "[No text detected]" |
| Pdf.PageTextSplit | backend/utils/pdf_processor.py:68 | a page's OCR lines can be read back from its text when no line holds a newline |
| Pdf.PageBlockShape | backend/utils/pdf_processor.py:69 | a page adds a newline, its `--- Page k ---` heading, then its text on the following lines |
| Pdf.PageHeadingEnds | backend/utils/pdf_processor.py:69 | the heading has no whitespace at either end, so the final strip never cuts into it |
| Pdf.OcrText | backend/utils/pdf_processor.py:52-75 | no pages give the empty text |
| Pdf.AssembleOkIff | backend/utils/pdf_processor.py:59-75 | the images' text is produced exactly when OCR succeeds on every page |
| Pdf.AssemblePrefix | backend/utils/pdf_processor.py:59-69 | the text of the first n pages is a prefix of the whole |
| Pdf.PageBlocksInOrder | backend/utils/pdf_processor.py:59-69 | page k+1's block follows the blocks of the pages before it |
| Pdf.FirstHeadingLeads | backend/utils/pdf_processor.py:69-72 | the text of a document with a page starts with `--- Page 1 ---` after the strip |
| Pdf.LeadingBlock | backend/utils/pdf_processor.py:72 | stripping a text that starts with a newline and a heading keeps that heading at its start |
| Pdf.ConvertPdfToImages | backend/utils/pdf_processor.py:40-49 | the page images on success, else the converter's failure wrapped as "Error converting PDF to images: " |
| Pdf.JoinPath | backend/utils/pdf_processor.py:83 | `os.path.join`: an absolute name replaces the folder, and a relative one goes after a `/` |
| Pdf.RelativeNameInFolder | backend/utils/pdf_processor.py:83 | a relative file name lands inside the folder and ends the path |
| Pdf.AbsoluteNameEscapesFolder | backend/utils/pdf_processor.py:83 | the client's name is used as given: `/etc/passwd` escapes the upload folder |
| Pdf.PdfProcessor.constructor | backend/utils/pdf_processor.py:15-17 | the processor starts without an OCR reader |
| Pdf.PdfProcessor.GetOcrReader | backend/utils/pdf_processor.py:19-26 | a cached reader is returned as it is; otherwise the new reader is cached and returned, or its construction's exception is raised and the cache stays empty; at most one reader is ever created |
| Pdf.CacheAfter | backend/utils/pdf_processor.py:22-24 | a cached reader stays; an empty cache is filled exactly when the construction succeeds, with the reader returned |
| Pdf.ReaderRetried | backend/utils/pdf_processor.py:22-24 | after a construction that raised, the next call constructs again |
| Pdf.ImagesText | backend/utils/pdf_processor.py:51-75 | a reader that cannot be constructed fails the call with the wrapped message; otherwise the result is the pages' OCR text |
| Pdf.ReaderFailureFailsEmptyPdf | backend/utils/pdf_processor.py:54-56 | without a reader even a PDF with no pages fails, where the same pages with a reader give the empty text |
| Pdf.PdfProcessor.ExtractTextFromImages | backend/utils/pdf_processor.py:51-75 | the result is `ImagesText`: a reader whose construction raises fails the call with "Error extracting text from images: " and its message, before any page, and leaves the cache empty; otherwise the pages' OCR text, with the reader cached |
| Pdf.PdfProcessor.SaveUploadedFile | backend/utils/pdf_processor.py:77-85 | the folder is created unless `makedirs` raises; when neither `makedirs` nor `file.save` raises, the file is written at the joined path and that path returned; otherwise the exception's message is returned and no file is written |
| Pdf.FoldersAfterSave | backend/utils/pdf_processor.py:79-81 | the upload folder exists after the save exactly when it existed or `makedirs` succeeded, and no other folder appears |
| Pdf.SaveError | backend/utils/pdf_processor.py:79-84 | the save raises exactly when a needed `makedirs` or the write raises, with the message of the first of them |
| Pdf.PdfProcessor.RemoveFile | backend/app.py:244 | `os.remove`: an existing file goes away; a missing one raises and nothing changes |
| Pdf.AssembleStep | backend/utils/pdf_processor.py:59-69 | reading one more page appends exactly its block |
| Pdf.AssembleErrStays | backend/utils/pdf_processor.py:73-75 | the first OCR failure aborts the whole extraction with its message |
| Routes.SerializeDoc | backend/app.py:36-47 | None stays None, a list keeps its length, a dict keeps its keys, and any other value is unchanged |
| Routes.SerializeListElementwise | backend/app.py:40-41 | element i of a serialized list is element i serialized, so the order is kept |
| Routes.SerializeDict | backend/app.py:42-46 | a dict's `_id`, if any, becomes its string form and every other field is unchanged |
| Routes.SerializeIdempotent | backend/app.py:36-47 | serializing an already serialized document changes nothing |
| Routes.SerializedIdRoundTrip | backend/app.py:44-45 | the string id a client receives parses back to the stored ObjectId |
| Routes.GetAll | backend/app.py:72-74 | `data.get(k)` for each key: the field's value, or None when absent |
| Routes.CreateRequiresNameAndEmail | backend/app.py:76-77 | a body without a truthy name or email gets 400 "Name and email are required", whatever the store holds |
| Routes.CreateRejectsDuplicate | backend/app.py:80-82 | an email already stored gets 400 "… with this email already exists" and nothing is created |
| Routes.CreateSucceedsIff | backend/app.py:70-91 | 201 exactly when the body is a dict with truthy name and email, the email is new and `create` returns |
| Routes.CreateStudentArguments | backend/app.py:128-141 | a student is created from name, email, `roll_number` and `class`, in that order |
| Routes.CreateEntity | backend/app.py:68-91 | `create_teacher` / `create_student` answer only 201, 400 or 500; a 400 carries one of the two validation messages, and a 201 carries success and the serialized new record |
| Routes.UploadCheckOrder | backend/app.py:226-235 | the upload is refused with the first failing check of: file part, non-empty name, extension |
| Routes.UploadAcceptsImageAsWritten | backend/app.py:234-235 | as written, an image such as `answer.png` passes the check whose message says only PDF is allowed |
| Routes.IsPdfNameIff | backend/app.py:234-235 | the intended check accepts exactly the allowed names whose extension is `pdf` in any case |
| Routes.UploadRejectsImage | backend/app.py:234-235 | under the intended check an image is refused with "Invalid file type. Only PDF allowed." |
| Routes.EvaluateRequestCheck | backend/app.py:259-280 | an accepted request has a student file, a non-empty model answer, non-empty integer max marks and an allowed file name |
| Routes.EvaluateCheckOrder | backend/app.py:259-280 | a refused request gets the message of the first failing check: file part, model answer and marks, extension, integer marks |
| Routes.EvaluateAcceptsIff | backend/app.py:259-280 | a request is accepted exactly when every check passes |
| Routes.EvaluateAcceptedPasses | backend/app.py:259-280 | an accepted request passes each of the four checks |
| Routes.StoredNamesDefaults | backend/app.py:283-285 | without ids the stored names are Unknown, Unknown and N/A, and no store is consulted |
| Routes.StoredNamesNotFound | backend/app.py:287-296 | an id whose record is not found leaves the defaults |
| Routes.StoredNamesFound | backend/app.py:287-296 | a found record's name and roll number replace the defaults |
| Routes.EvaluationResponse | backend/app.py:333-335 | the response is the scorer's result with `extracted_text` and the stored record's id as `evaluation_id` added |
| Routes.EvaluationResponseKeeps | backend/app.py:333-335 | every other field of the scorer's result is kept |
| Routes.EvaluationResponseHasResultFields | backend/app.py:311-335 | the six result fields survive into the response |
| Routes.PipelineFailsOnlyOnIo | backend/app.py:298-347 | after the checks, the request fails exactly when the save, conversion, the OCR reader's construction, OCR or the insert fails, a failed save with its own message; the score is the post-processed model reply |
| Routes.SaveThenRemove | backend/app.py:299-338 | saving a file and removing it leaves every other file as it was |
| Routes.LimitArg | backend/app.py:381 | `request.args.get('limit', default, type=int)`: the default when absent or not an integer, else the integer |
| Routes.LimitArgRoundTrip | backend/app.py:381 | a limit written into the query string is the limit the route uses |
| Routes.Documents | backend/app.py:384-388 | one document per stored record |
| Routes.ListBodyCount | backend/app.py:384-418 | a listing's `count` is the number of evaluations it holds |
| Routes.AllEvaluationsUniform | backend/app.py:353-357 | the `[]` shortcut for no records agrees with the general case: the listing is always the serialized documents |
| Routes.StudentStatistics | backend/app.py:178-198 | a failure is a 500; missing statistics give all-zero totals; otherwise the statistics are serialized |
| Routes.Backend.constructor | backend/app.py:28-32 | the server holds the upload folder, the file processor and the collection |
| Routes.Backend.UploadModelAnswer | backend/app.py:222-253 | for a given file-name check (`allowed_file` as written, a `.pdf` test as intended): a refusal changes no file; a failed save is a 500 with its message and writes nothing; otherwise a successful read returns its text and removes the file, and a failed read is a 500 that leaves the file behind |
| Routes.Backend.Process | backend/app.py:298-347 | a failed save is a 500 that writes and stores nothing; otherwise on success one record is appended, the response carries the result and the file is removed, and on failure nothing is stored, the file stays and the error is a 500; the OCR reader is cached only once it has been constructed |
| Routes.Backend.ProcessSaved | backend/app.py:304-343 | after the save: on success one record is appended, the response carries the result and the file is removed; a failure stores nothing, leaves the file and is a 500 with the step's message |
| Routes.Backend.ReadStudentText | backend/app.py:304-308 | the student's text is the OCR text of the converted pages, or the first failure among the conversion, the reader's construction and the pages |
| Routes.ReaderFailureFailsRequest | backend/app.py:304-308 | before any reader exists, a construction that raises fails a saved and converted request, even one whose PDF has no pages |
| Routes.Backend.EvaluateAnswer | backend/app.py:255-347 | a refused request gets its 400 and touches no file; a failed lookup is a 500; otherwise 200 exactly when the save and the processing succeed, and then one record is appended and the upload removed; a failure is a 500 with the failing step's message that stores nothing and leaves the upload behind when it was written; the OCR reader is kept once made, and a construction that raises leaves none |
| Routes.Backend.DeleteEvaluation | backend/app.py:422-436 | 404 exactly when no record has the id, and then nothing changes; a malformed id is a 500; for a well-formed id the store afterwards is the old one with the first record of that id removed |
| Routes.Backend.AllEvaluationsRoute | backend/app.py:349-360 | 200 with every stored record exactly once, serialized, in some newest-first order |
| Routes.Backend.StudentEvaluations | backend/app.py:377-390 | 200 with a newest-limited selection of the student's records, the limit being the `limit` argument or 10 |
| Routes.Backend.TeacherEvaluations | backend/app.py:392-405 | 200 with a newest-limited selection of the teacher's records, the limit being the `limit` argument or 10 |
| Routes.Backend.RecentEvaluations | backend/app.py:407-420 | 200 with a newest-limited selection of all records, the limit being the `limit` argument or 20 |
| Routes.StudentListingBounded | backend/app.py:377-382 | a student's listing holds at most `limit` records, 10 when no limit is given |
| Api.FormData.constructor | frontend/src/services/api.js:84 | `new FormData()` has no entries |
| Api.FormData.Append | frontend/src/services/api.js:85-90 | `append` adds one entry at the end and keeps the earlier ones |
| Api.Names | frontend/src/services/api.js:84-90 | the names of a body's entries, one per entry, in order |
| Api.Optional | frontend/src/services/api.js:88-90 | an optional value adds one entry exactly when it is truthy, and nothing otherwise |
| Api.EvaluateAnswer | frontend/src/services/api.js:75-97 | a given `FormData` is sent unchanged; otherwise a fresh one holds exactly the entries `EvaluateFields` lists |
| Api.NewEvaluateForm | frontend/src/services/api.js:84-90 | the appends build exactly the file, model answer and marks, then each truthy optional value |
| Api.RequiredFieldsFirst | frontend/src/services/api.js:85-87 | student_file, model_answer and max_marks are always the first three entries, in that order |
| Api.OptionalFieldsIff | frontend/src/services/api.js:88-90 | question, teacher_id and student_id are each sent exactly when truthy, and no name is sent twice |
| Api.FormOfConcat | frontend/src/services/api.js:93-95 | the server's form of a body made of two parts: the first value of a name wins |
| Api.FilesOfConcat | frontend/src/services/api.js:93-95 | the same for the server's file parts |
| Api.RequiredAsRequest | frontend/src/services/api.js:85-87 | the three required entries reach the server as one file part and two form values |
| Api.OptionalAsRequest | frontend/src/services/api.js:88-90 | an optional entry reaches the server as at most one form value and no file |
| Api.EvaluateFieldsAsRequest | frontend/src/services/api.js:84-95 | the built body reaches the server as the student file and the form of the given values |
| Api.MergedFormLookups | frontend/src/services/api.js:84-90 | the route's lookups in that form give back the values the client passed |
| Api.RouteReadsForm | backend/app.py:259-280 | a form holding an accepted model answer, integer marks and an allowed file passes every check and is read back as given |
| Api.ClientRequestAccepted | frontend/src/services/api.js:75-97 | a body built from an allowed file, a non-empty model answer and integer marks passes every check of the route, which reads back exactly the arguments, an omitted question as `''` |
| Api.CreateTeacherBody | frontend/src/services/api.js:11-16 | the teacher body has exactly the keys name, email and subject |
| Api.CreateStudentBody | frontend/src/services/api.js:34-44 | the student body has exactly the keys name, email, `roll_number` and `class` |
| Api.CreateTeacherKeysRead | frontend/src/services/api.js:12 | the route reads name, email and subject back from the keys the client writes |
| Api.CreateStudentKeysRead | frontend/src/services/api.js:35-39 | the route reads the roll number from `roll_number` and the class name from `class` |
| Api.QueryArgs | frontend/src/services/api.js:109-121 | the query arguments a route reads from a URL: none when it has no `?`; otherwise the text after the first `?` and before any `#`, split on `&` |
| Api.PairArgsKeys | backend/app.py:381 | a key is present exactly when some non-empty pair names it |
| Api.PairArgsFirst | backend/app.py:381 | `request.args.get` reads the value of the first pair with that key |
| Api.LimitQueryRoundTrip | frontend/src/services/api.js:109-121 | after a path free of `?` and `#`, a `?limit=n` is read by the route as the limit n |
| Api.DefaultLimitsReachRoutes | frontend/src/services/api.js:109-121 | called without a limit and with an id free of `?` and `#`, the listings ask for 10, 10 and 20, the routes' own defaults |
| Api.ExplicitLimitReachesRoute | frontend/src/services/api.js:109-121 | for an id free of `?` and `#`, a limit given to any listing is the limit the route applies |
| Api.IdWithQuestionMarkLosesLimit | frontend/src/services/api.js:109-111 | a student id holding a `?` moves the `limit` into another key, so the route applies its default 10 whatever limit was given |
| Frontend.ServerErrorOr | frontend/src/pages/Management.jsx:89 | the server's non-empty `error` text when the response carried one, otherwise the fallback message |
| Frontend.Member | frontend/src/pages/Management.jsx:47 | a response property is the body's field when the body is an object holding that key, and `undefined` otherwise |
| Frontend.ListMember | frontend/src/pages/Management.jsx:29-30 | `res.list \|\| []` as the page keeps it: the property's items when it is an array, otherwise the empty list |
| Frontend.WithoutIdExact | frontend/src/pages/Management.jsx:85 | removing by id keeps the survivors in order, keeps exactly the entries whose id differs, and shortens the list by the number of entries carrying the id |
| Frontend.WithoutAbsentId | frontend/src/pages/Management.jsx:85 | a list in which no entry carries the id is left unchanged |
| Management.AddTeacherRequiresNameAndEmail | frontend/src/pages/Management.jsx:38-42 | no request is sent exactly when the name or the email is empty, and then only the error changes |
| Management.AddStudentRequiresRollNumber | frontend/src/pages/Management.jsx:57-61 | no request is sent exactly when the name, the email or the roll number is empty, and then only the error changes |
| Management.AddTeacherAppends | frontend/src/pages/Management.jsx:44-51 | a successful add sends the create request built from the form, appends the created teacher, clears the error, resets and hides the form and leaves the students alone |
| Management.AddStudentAppends | frontend/src/pages/Management.jsx:63-75 | a successful add sends the create request built from the form, appends the created student, clears the error, resets and hides the form and leaves the teachers alone |
| Management.AddFailureKeepsLists | frontend/src/pages/Management.jsx:52-54 | a failed add keeps both lists, the form and the success message, and shows the server's error, else the client-side message |
| Management.DeclinedDeleteChangesNothing | frontend/src/pages/Management.jsx:82 | without confirmation neither delete changes the page |
| Management.DeleteTeacherRemovesExactly | frontend/src/pages/Management.jsx:83-87 | a confirmed, successful delete keeps, in order, exactly the teachers with another id and leaves the students alone |
| Management.DeleteStudentRemovesExactly | frontend/src/pages/Management.jsx:96-100 | a confirmed, successful delete keeps, in order, exactly the students with another id and leaves the teachers alone |
| Management.FailedDeleteKeepsList | frontend/src/pages/Management.jsx:88-89 | a failed delete changes only the error, which is the server's error or the fixed "Failed to delete …" text |
| Management.LoadDataReplacesLists | frontend/src/pages/Management.jsx:22-30 | loading replaces both lists with the fetched arrays, an absent list reading as empty |
| Management.LoadFailureKeepsLists | frontend/src/pages/Management.jsx:31-32 | a failed load changes only the error, which is the client-side message |
| Management.ManagementPage.constructor | frontend/src/pages/Management.jsx:7-16 | the page starts on the teachers tab with empty lists, hidden and empty forms and no messages |
| Management.ManagementPage.LoadData | frontend/src/pages/Management.jsx:22-36 | the new state is the load transition of the old one |
| Management.ManagementPage.HandleAddTeacher | frontend/src/pages/Management.jsx:38-55 | the new state and the request sent are the add-teacher transition of the old state |
| Management.ManagementPage.HandleAddStudent | frontend/src/pages/Management.jsx:57-79 | the new state and the request sent are the add-student transition of the old state |
| Management.ManagementPage.HandleDeleteTeacher | frontend/src/pages/Management.jsx:81-92 | the new state is the delete-teacher transition of the old one |
| Management.ManagementPage.HandleDeleteStudent | frontend/src/pages/Management.jsx:94-105 | the new state is the delete-student transition of the old one |
| EvaluatePage.EvaluateRefusal | frontend/src/pages/Evaluate.jsx:94-113 | a submission is refused unless a student file was chosen |
| EvaluatePage.WithMaxMarks | frontend/src/pages/Evaluate.jsx:129-131 | setting `max_marks` succeeds exactly on objects and arrays; an object keeps every other property and gains `max_marks` holding the client's text |
| EvaluatePage.EvaluateLadderOrder | frontend/src/pages/Evaluate.jsx:94-113 | the refusal is the first failing check's message in the source's order (file, marks, teacher, student, model answer), and there is none when all pass |
| EvaluatePage.RefusedEvaluationSendsNothing | frontend/src/pages/Evaluate.jsx:94-113 | a refused evaluation sends nothing, forwards nothing and changes only the error, which is non-empty |
| EvaluatePage.SubmittedNames | frontend/src/pages/Evaluate.jsx:119-125 | the submitted body always holds exactly the six names `student_file`, `model_answer`, `max_marks`, `question`, `teacher_id`, `student_id`, in that order |
| EvaluatePage.SubmittedRequestAccepted | frontend/src/pages/Evaluate.jsx:118-127 | a submission with an allowed file name and integer marks passes the `evaluate-answer` route's checks, which read back the page's draft with both ids |
| EvaluatePage.SubmittedLookups | frontend/src/pages/Evaluate.jsx:121-125 | the route finds the model answer, marks, question and both ids of the submitted form |
| EvaluatePage.SubmittedForm | frontend/src/pages/Evaluate.jsx:123-125 | the question and both ids are always sent as form fields, and never as files |
| EvaluatePage.SuccessStoresResult | frontend/src/pages/Evaluate.jsx:127-134 | on success the stored result and the one navigated with are the same object, carrying the client's `max_marks` besides the server's fields; the error is cleared and the step kept |
| EvaluatePage.PrimitiveResultFails | frontend/src/pages/Evaluate.jsx:129-136 | a response that is neither an object nor an array makes the assignment fail: only the error changes and nothing is forwarded |
| EvaluatePage.FailedEvaluationKeepsDraft | frontend/src/pages/Evaluate.jsx:135-136 | a failed request changes only the error, to the server's error text else the client-side message |
| EvaluatePage.UploadOutcomes | frontend/src/pages/Evaluate.jsx:43-59 | without a file the upload changes nothing; on success the model answer text is the extracted text and the page moves to step 2; on failure the step and text are kept and the error is shown |
| EvaluatePage.NextNeedsModelAnswer | frontend/src/pages/Evaluate.jsx:199-202 | "Next" reaches step 2 exactly when there is model answer text (or the page is already there) and changes nothing else |
| EvaluatePage.BackKeepsDraft | frontend/src/pages/Evaluate.jsx:398 | "Back" returns to step 1 and keeps every draft field and both selections |
| EvaluatePage.EvaluateAnotherKeepsSelection | frontend/src/pages/Evaluate.jsx:462-469 | "Evaluate Another" returns to step 1, clears the draft and the result, and keeps the selections, the lists and the error |
| EvaluatePage.InlineAddSelects | frontend/src/pages/Evaluate.jsx:61-91 | a successful inline add appends the created entity, selects its id, and hides and clears the form |
| EvaluatePage.InlineAddWithoutEntity | frontend/src/pages/Evaluate.jsx:67-69 | a create response without the entity still appends `undefined`, then fails reading its id: nothing is selected and the form stays open |
| EvaluatePage.InlineAddRequiresNameAndEmail | frontend/src/pages/Evaluate.jsx:62-65 | an inline add sends a request exactly when the name and the email are present |
| EvaluatePage.InlineStudentLaxerThanManagement | frontend/src/pages/Evaluate.jsx:78 | a student form without a roll number is sent from this page but refused by the management page |
| EvaluatePage.StepStaysReachable | frontend/src/pages/Evaluate.jsx:9 | every handler keeps the step at 1 or 2, so the step-3 results view is never shown |
| EvaluatePage.RequestsKeepStep | frontend/src/pages/Evaluate.jsx:61-140 | adding a teacher or a student, and evaluating, never change the step |
| EvaluatePage.EvaluatePage.constructor | frontend/src/pages/Evaluate.jsx:9-24 | the page starts at step 1 with an empty draft, empty lists, no selection, no result and closed forms |
| EvaluatePage.EvaluatePage.LoadUsers | frontend/src/pages/Evaluate.jsx:30-41 | the new state is the load transition of the old one: a failure changes nothing |
| EvaluatePage.EvaluatePage.HandleModelAnswerUpload | frontend/src/pages/Evaluate.jsx:43-59 | the new state is the upload transition of the old one |
| EvaluatePage.EvaluatePage.Next | frontend/src/pages/Evaluate.jsx:199-202 | the new state is the "Next" transition of the old one |
| EvaluatePage.EvaluatePage.Back | frontend/src/pages/Evaluate.jsx:398 | the new state is the "Back" transition of the old one |
| EvaluatePage.EvaluatePage.ChooseStudentFile | frontend/src/pages/Evaluate.jsx:344-350 | the new state is the file-choice transition of the old one |
| EvaluatePage.EvaluatePage.HandleAddTeacher | frontend/src/pages/Evaluate.jsx:61-75 | the new state and the request sent are the inline add-teacher transition of the old state |
| EvaluatePage.EvaluatePage.HandleAddStudent | frontend/src/pages/Evaluate.jsx:77-91 | the new state and the request sent are the inline add-student transition of the old state |
| EvaluatePage.EvaluatePage.HandleEvaluate | frontend/src/pages/Evaluate.jsx:93-140 | the new state, the body sent and the result navigated with are the evaluate transition of the old state |
| EvaluatePage.EvaluatePage.BuildFormData | frontend/src/pages/Evaluate.jsx:119-125 | a fresh `FormData` holding exactly the six submitted entries of the current state |
| EvaluatePage.EvaluatePage.EvaluateAnother | frontend/src/pages/Evaluate.jsx:462-469 | the new state is the "Evaluate Another" transition of the old one |
| ExamEvaluator.OrNull | frontend/src/components/ExamEvaluator.jsx:122-123 | `value \|\| null`: absent exactly for the empty selection, otherwise the selection itself |
| ExamEvaluator.EvaluationRequiresInputs | frontend/src/components/ExamEvaluator.jsx:106-110 | no request is sent exactly when the student file, the model answer text or the marks are missing, and then only the error changes |
| ExamEvaluator.SelectionsOptional | frontend/src/components/ExamEvaluator.jsx:117-124 | the body carries `teacher_id` exactly when a teacher is selected, and `student_id` exactly when a student is |
| ExamEvaluator.SubmittedRequestAccepted | frontend/src/components/ExamEvaluator.jsx:117-124 | a draft with an allowed file name and integer marks passes the `evaluate-answer` route's checks, an unselected teacher or student reading as absent |
| ExamEvaluator.EvaluationOutcomes | frontend/src/components/ExamEvaluator.jsx:112-131 | success shows the response's evaluation at step 3 with no error, shown exactly when it is truthy; failure keeps the step and the cleared results and shows the prefixed error |
| ExamEvaluator.UploadOutcomes | frontend/src/components/ExamEvaluator.jsx:82-99 | without a file the upload changes nothing; success stores the extracted text and moves to step 2; failure keeps the text and step and shows the prefixed error; either way the file is kept |
| ExamEvaluator.UploadDisablesPicker | frontend/src/components/ExamEvaluator.jsx:275 | once model answer text is loaded the picker is disabled |
| ExamEvaluator.AddAlwaysSends | frontend/src/components/ExamEvaluator.jsx:53-62 | inline creation checks nothing locally: the request is always built from the form, and a failure changes only the prefixed error |
| ExamEvaluator.AddSelects | frontend/src/components/ExamEvaluator.jsx:53-79 | a successful add appends the created entity, selects its id, and hides and clears the form |
| ExamEvaluator.ResetRestoresInitial | frontend/src/components/ExamEvaluator.jsx:134-145 | reset restores the initial draft, selections, result, error and step; only the lists, the add-forms and the loading flag survive |
| ExamEvaluator.ButtonLaxerThanHandler | frontend/src/components/ExamEvaluator.jsx:106-110 | the evaluate button is enabled for a draft without model answer text, which the handler then refuses |
| ExamEvaluator.EnabledButtonSends | frontend/src/components/ExamEvaluator.jsx:323-324 | an enabled button with model answer text always leads to the request being sent |
| ExamEvaluator.StepProgress | frontend/src/components/ExamEvaluator.jsx:93 | the handlers keep the step between 1 and 3; choosing the student file keeps it and reset returns to 1 |
| ExamEvaluator.AddKeepsStep | frontend/src/components/ExamEvaluator.jsx:53-79 | adding a teacher or a student never changes the step |
| ExamEvaluator.LateResponseOverridesReset | frontend/src/components/ExamEvaluator.jsx:125-126 | a reset during an evaluation is undone by its reply, which shows step 3 with a result for the cleared draft |
| ExamEvaluator.InFlightDisablesButtons | frontend/src/components/ExamEvaluator.jsx:275 | while an upload or evaluation is in flight both the picker and the evaluate button are disabled |
| ExamEvaluator.ExamEvaluator.constructor | frontend/src/components/ExamEvaluator.jsx:14-34 | the component starts with an empty draft at step 1, no result, not loading, no selection and closed forms |
| ExamEvaluator.ExamEvaluator.LoadUsers | frontend/src/components/ExamEvaluator.jsx:40-51 | the new state is the load transition of the old one: a failure changes nothing |
| ExamEvaluator.ExamEvaluator.HandleAddTeacher | frontend/src/components/ExamEvaluator.jsx:53-63 | the new state and the request sent are the add-teacher transition of the old state |
| ExamEvaluator.ExamEvaluator.HandleAddStudent | frontend/src/components/ExamEvaluator.jsx:65-80 | the new state and the request sent are the add-student transition of the old state |
| ExamEvaluator.ExamEvaluator.StartModelAnswerUpload | frontend/src/components/ExamEvaluator.jsx:82-91 | the new state and the upload sent are the start of the upload transition |
| ExamEvaluator.ExamEvaluator.FinishModelAnswerUpload | frontend/src/components/ExamEvaluator.jsx:91-98 | the new state is the end of the upload transition for the request's outcome |
| ExamEvaluator.ExamEvaluator.HandleStudentFileUpload | frontend/src/components/ExamEvaluator.jsx:101-104 | the new state is the file-choice transition of the old one |
| ExamEvaluator.ExamEvaluator.StartEvaluation | frontend/src/components/ExamEvaluator.jsx:106-124 | the new state and the body sent are the start of the evaluation transition |
| ExamEvaluator.ExamEvaluator.FinishEvaluation | frontend/src/components/ExamEvaluator.jsx:125-131 | the new state is the end of the evaluation transition for the request's outcome |
| ExamEvaluator.ExamEvaluator.ResetEvaluation | frontend/src/components/ExamEvaluator.jsx:134-145 | the new state is the reset transition of the old one |
| History.DateBound | frontend/src/pages/EvaluationHistory.jsx:87-97 | the start of the date range: the start of today, a week ago or a month ago for the three ranges; for any other value the current time |
| History.MatchesIff | frontend/src/pages/EvaluationHistory.jsx:64-103 | when the filter effect does not raise, a record is shown exactly when it passes each active filter: the name contains the search text ignoring case, the roll number's text contains its search, the teacher is the selected one, and the date is a valid time no earlier than the range's start |
| History.FilterAllSubsequence | frontend/src/pages/EvaluationHistory.jsx:64-105 | the filtered list keeps the fetched order and holds exactly the fetched records that match |
| History.DefaultCriteriaKeepsAll | frontend/src/pages/EvaluationHistory.jsx:15-18 | with the initial criteria (empty searches, all teachers, all dates) every record is shown, in order |
| History.BlankSearchInactive | frontend/src/pages/EvaluationHistory.jsx:68-79 | a search made only of whitespace is the same as an empty one |
| History.NameSearchNotTrimmed | frontend/src/pages/EvaluationHistory.jsx:68-70 | the search text is trimmed only to decide whether the filter is active: " ann" does not find "Ann" while "ann" does |
| History.NamelessDroppedByNameFilter | frontend/src/pages/EvaluationHistory.jsx:69-70 | a record without a student name is hidden while the name filter is active |
| History.Narrow | frontend/src/pages/EvaluationHistory.jsx:74-103 | each filter after the name filter, in the source's order, narrows the records that passed the filters before it to those that also pass it |
| History.NarrowByName | frontend/src/pages/EvaluationHistory.jsx:67-72 | an active name search raises `TypeError` when some record's name is neither text nor missing, and otherwise narrows the list to the matching names; a blank search keeps the list |
| History.FilterByName | frontend/src/pages/EvaluationHistory.jsx:69-71 | `filter` with the name callback raises exactly when some record's name is neither text nor missing, and otherwise keeps exactly the records whose name contains the search, in order |
| History.NarrowByRollNo | frontend/src/pages/EvaluationHistory.jsx:74-79 | the roll number filter narrows the list only when its search is not blank |
| History.NarrowByTeacher | frontend/src/pages/EvaluationHistory.jsx:81-84 | the teacher filter narrows the list only when a teacher other than "all" is selected |
| History.NarrowByDate | frontend/src/pages/EvaluationHistory.jsx:86-103 | the date filter narrows the list only when a range other than "all" is chosen |
| History.FilterRecords | frontend/src/pages/EvaluationHistory.jsx:64-105 | applying the four filters one after the other raises the name filter's `TypeError` exactly when it raises, and otherwise yields exactly the records that match all active criteria |
| History.EvaluationList | frontend/src/pages/EvaluationHistory.jsx:36 | an array response is the list itself; an object's `evaluations` array is the list; `null` yields no list |
| History.TeacherNames | frontend/src/pages/EvaluationHistory.jsx:43 | one teacher name per record, in order |
| History.DistinctTeachersSpec | frontend/src/pages/EvaluationHistory.jsx:43 | the teacher options have no duplicates, hold exactly the truthy teacher names of the records, and keep their first-occurrence order |
| History.ApplyFiltersStep | frontend/src/pages/EvaluationHistory.jsx:59-62 | after the filter effect the shown list is what the filters make of the fetched list and nothing else changes; when the name filter raises, the page is taken down with that error and its lists stay as they were |
| History.NumericNameTakesPageDown | frontend/src/pages/EvaluationHistory.jsx:69-70 | a record whose name is the number 5, searched for "a", takes the page down instead of being hidden |
| History.FetchThenFilter | frontend/src/pages/EvaluationHistory.jsx:27-47 | a successful fetch stores the list and its teachers, shows every record, clears the error and loading; the next filter effect then applies the criteria, or takes the page down when the name filter raises |
| History.FailedFetchEmpties | frontend/src/pages/EvaluationHistory.jsx:48-55 | a failed fetch empties both lists, keeps the teacher options and shows an error that is never empty |
| History.DeleteKeepsSettled | frontend/src/pages/EvaluationHistory.jsx:298-301 | deleting from both lists keeps the shown list equal to the filtered fetched list |
| History.DeleteRemovesExactly | frontend/src/pages/EvaluationHistory.jsx:298-302 | a successful delete keeps, in order, exactly the records with another id in both lists and clears the error |
| History.DeclinedOrFailedDeleteKeepsLists | frontend/src/pages/EvaluationHistory.jsx:293-306 | without confirmation nothing changes; a failed delete keeps both lists and shows an error that is never empty |
| History.DeleteKeepsTeacherOptions | frontend/src/pages/EvaluationHistory.jsx:298-302 | the teacher options are not recomputed on delete |
| History.ToggleTwice | frontend/src/pages/EvaluationHistory.jsx:398 | clicking a closed card opens it, and clicking it again restores the page |
| History.ToggleOther | frontend/src/pages/EvaluationHistory.jsx:398 | opening another card closes the open one |
| History.TrailingWordLength | frontend/src/pages/EvaluationHistory.jsx:285 | the length of the run of word characters that ends a text: all of them word characters, preceded by a non-word character or the start |
| History.HasExtensionIff | frontend/src/pages/EvaluationHistory.jsx:285 | the backward scan agrees with `/\.\w+$/`: the text ends in a dot followed by one or more word characters |
| History.DisplayName | frontend/src/pages/EvaluationHistory.jsx:282-290 | "N/A" for an empty text, the trimmed text when it ends in an extension, otherwise "Text Content" |
| History.DisplayNameNotAvailableIff | frontend/src/pages/EvaluationHistory.jsx:282-290 | "N/A" is shown exactly for an empty field |
| History.GradeColor | frontend/src/pages/EvaluationHistory.jsx:120-132 | a grade gets its own colour exactly when it is one of the eight listed grades |
| History.GradeColorByLetter | frontend/src/pages/EvaluationHistory.jsx:120-132 | a plus grade shares its letter's colour, D and F share red, and "N/A" gets the fallback colour |
| History.NormalizePoints | frontend/src/pages/EvaluationHistory.jsx:456-478 | a falsy field omits the section; an array of points is shown as it is; a non-empty text as one point per non-blank line, in order; any other truthy value makes the view throw |
| History.PointLinesSpec | frontend/src/pages/EvaluationHistory.jsx:462 | the kept lines are lines of the text, in order, none of them blank and none holding a newline |
| History.PointLinesRoundTrip | frontend/src/pages/EvaluationHistory.jsx:462 | a text with no blank lines is split into lines that join back into it |
| History.FirstTruthy | frontend/src/pages/EvaluationHistory.jsx:180-210 | the report shows the first truthy candidate, rendered, and the fallback when no candidate is truthy |
| History.StoredMarksShown | frontend/src/pages/EvaluationHistory.jsx:202 | a record holding its score under `marks` only shows that score: 7 reads "7", the falsy 0 reads "0", and the text "0" reads "0" |
| History.ReportWith | frontend/src/pages/EvaluationHistory.jsx:180-243 | a report is produced exactly when both answer fields can be named |
| History.ReportAsWritten | frontend/src/pages/EvaluationHistory.jsx:180-243 | the download handler as written throws when strengths are non-empty text, and otherwise when missing points are, each with its own message; it produces a report exactly when neither points field is non-empty text and both answers can be named |
| History.ReportAsWrittenFailsOnText | frontend/src/pages/EvaluationHistory.jsx:222-226 | the download handler as written throws on a record whose strengths are the text "Clear\nConcise" |
| History.TextPointsShownAsLines | frontend/src/pages/EvaluationHistory.jsx:456-464 | the card and modal views show that record's strengths as the two points "Clear" and "Concise" |
| History.ReportOfTextStrengths | frontend/src/pages/EvaluationHistory.jsx:222-226 | with the corrected normalisation, strengths given as text are reported as exactly their non-blank lines |
| History.ReportOfTextPoints | frontend/src/pages/EvaluationHistory.jsx:222-226 | the corrected report of the text-strengths record succeeds and lists the same two points as the views |
| History.ReportOfSpec | frontend/src/pages/EvaluationHistory.jsx:180-243 | the corrected report succeeds exactly when both answers can be named; it lists a text's non-blank lines and every item of a list; and it agrees with the handler as written wherever that succeeds |
| History.ReportSections | frontend/src/pages/EvaluationHistory.jsx:202-238 | the feedback section appears exactly when the feedback is truthy, a points section exactly when it has points, and the marks are `marks_awarded` when it is truthy, else `marks` when it is truthy, else "0" |
| History.HistoryPage.constructor | frontend/src/pages/EvaluationHistory.jsx:7-21 | the page starts loading, with empty lists, no error, no selection, empty searches and "all" teachers and dates |
| History.HistoryPage.StartFetch | frontend/src/pages/EvaluationHistory.jsx:29-30 | the new state is the start of the fetch: loading, with the error cleared |
| History.HistoryPage.FinishFetch | frontend/src/pages/EvaluationHistory.jsx:32-56 | the new state is the end of the fetch for the request's outcome |
| History.HistoryPage.ApplyFilters | frontend/src/pages/EvaluationHistory.jsx:64-106 | the new state is the filter effect applied to the old one, a raised `TypeError` taking the page down |
| History.HistoryPage.SetSearchStudent | frontend/src/pages/EvaluationHistory.jsx:332 | only the name search changes |
| History.HistoryPage.SetSearchRollNo | frontend/src/pages/EvaluationHistory.jsx:343 | only the roll number search changes |
| History.HistoryPage.SetSelectedTeacher | frontend/src/pages/EvaluationHistory.jsx:352 | only the selected teacher changes |
| History.HistoryPage.SetDateFilter | frontend/src/pages/EvaluationHistory.jsx:366 | only the date range changes |
| History.HistoryPage.ToggleExpanded | frontend/src/pages/EvaluationHistory.jsx:398 | the new state is the toggle transition of the old one |
| History.HistoryPage.ViewEvaluation | frontend/src/pages/EvaluationHistory.jsx:278-280 | only the selected evaluation changes |
| History.HistoryPage.DeleteEvaluation | frontend/src/pages/EvaluationHistory.jsx:292-307 | the new state is the delete transition of the old one |

## Left out

- I/O and external services: axios and the base URL, Flask's request parsing and CORS, pymongo and the MongoDB query engine, the Gemini call and its prompt wording, PyPDF2, pdf2image with Poppler, EasyOCR, and the file system's `os.makedirs` and `file.save`. Each is replaced by an input, or an oracle function, that gives its result or the message of the exception it raised.
- Logging (`logger`, `console.log`/`console.error`) has no effect on the modelled state, and index creation in `DatabaseConnection` only logs its failures. Neither is modelled, and neither is `close()`.
- Routes that only pass a store call through are not modelled: `health_check`, `get_teacher`, `get_all_teachers`, `get_student`, `get_all_students`, `delete_teacher`, `delete_student`, `get_evaluation` and `ocr_only`. The same holds for `Evaluation.find_by_id` and for backend/models/teacher.py and backend/models/student.py, which only build dicts and call the driver.
- Routes.StudentStatistics: the `$avg` aggregation of `get_student_statistics` is floating point over a field `create` never writes, so the aggregate is an input. Only the route's shaping and its all-zero fallback are modelled.
- EvaluationStore.SortNewestFirst: MongoDB leaves the order of records with equal `created_at` unspecified. The model sorts stably, so ties keep their stored order.
- Concurrency: `Promise.all`, the 300-second client timeout and React's batching of state updates are not modelled. An awaited handler is modelled either as one step or, where other handlers can run during the `await` (`ExamEvaluator`, `History.HistoryPage.StartFetch`/`FinishFetch`), as a start step and a finish step. The lists the inline add handlers append to are the ones current at the finish, where the source appends to the list captured when the handler started.
- The `loading` overlay that `Evaluate.jsx` and `Management.jsx` raise through their `setLoading` prop belongs to the parent component and is not modelled.
- Form typing (`onChange` of the add-forms and draft inputs), the show/hide toggles of the add-forms and the tab switch of `Management.jsx` are plain setters and are not modelled.
- Clock and dates: `new Date()`, `setHours`, `setDate` and `setMonth` are not computed. The four bounds of the date filter are an input (`History.Clock`). A record's time is a `Date` value or a number. The routes actually send `created_at` as RFC 822 text with whole seconds, which the page turns back into a `Date`, so the milliseconds are lost on the way. The model keeps the `Date` value and leaves that text round trip out. `toLocaleDateString` and the report's footer time are left out.
- Text.IsSpace: whitespace is space, tab, newline, vertical tab, form feed and carriage return for both Python's `strip()` and JavaScript's `trim()`. The separators `\x1c`-`\x1f` that Python's `strip()` also removes, and all non-ASCII whitespace, are not modelled. Lower-casing changes only ASCII letters; Unicode case folding is not modelled.
- Text.ParseInt: Python's `int()` also accepts underscores between digits (`int("1_0")` is 10) and non-ASCII digits. The model reads only an optional sign followed by ASCII digits, so such a `max_marks` is refused with a 400 here.
- History.RollText: `toString()` of an array or object roll number is not modelled. Such a record never matches a roll number search here, where JavaScript would search its text form.
- History.Display: in the printed report a `Date` is rendered as its count of milliseconds, where the browser writes the date out in full. Text, numbers, booleans, `null`, arrays and objects are rendered as JavaScript's `String()` renders them.
- History.PointsAsWritten: an object carrying a `length` property is read as holding no points, where the report as written would call its `map` and throw.
- History: after the filter effect takes the page down, the model's later steps still apply to the page state, where the browser runs no handler of an unmounted page. A `null` entry in the fetched list, whose fields the filters read and the page would fail on, is read here as a record with no fields; the routes never send one.
- Frontend.Member: a response body is an object. Reading a key of a `null` body, a `TypeError` in JavaScript, is read as a missing key, so for a `null` body the evaluation and inline-add handlers of `ExamEvaluator.jsx` and `Evaluate.jsx` go on where the browser would throw; the routes never send a `null` body.
- Pdf.PdfProcessor.SaveUploadedFile: a `file.save` that raises after writing part of the file is modelled as writing nothing.
- The messages of JavaScript `TypeError`s, such as reading `_id` of `undefined` or calling `map` on a string, are fixed texts here. The browser's wording differs between engines.
- The browser side of the report export (`Blob`, the hidden `iframe`, `print()` and the timers) is not modelled. The model stops at the report's content.
- Frontend.ListMember: `res.teachers || []` keeps any truthy value, such as a string or an object, where the model keeps the empty list. The page state here is a list, so a truthy non-array body is not modelled.
- Management: the `setTimeout` calls that clear the success message after three seconds (frontend/src/pages/Management.jsx:51-100) are not modelled. A success message stays until the next action replaces it.
- Json.Value: numbers are integers. A fractional `marks_awarded` or `percentage` from the scorer or the store is not representable, and neither are floating point rounding and formatting.
- DbConnection: `client[db_name]` rejects names holding characters MongoDB forbids, such as `/`, `.` or a space, with `InvalidName`. The model accepts every non-empty name.
- Pdf.JoinPath: `os.path.join` is modelled with POSIX rules. The Windows rules the Poppler path points to (backslashes, drive letters) are not modelled.
- Api: query text is not percent-decoded and `+` is not read as a space. Ids holding `/`, `?` or `#` change the path or the query the route sees; the listing lemmas require ids free of `?` and `#`, and `IdWithQuestionMarkLosesLimit` shows what happens otherwise.
- frontend/src/components/Results.jsx, the other view files and backend/test_gemini.py are not part of this model.

## Findings

| source | as written | input that shows it | evidently intended | confidence | as-written member | corrected member |
|---|---|---|---|---|---|---|
| backend/app.py:234-235 | `upload_model_answer` checks the name with `allowed_file`, which also admits png, jpg and jpeg, while its message says only PDF files are allowed and the extraction that follows reads a PDF | a file part named `answer.png` passes the check and is handed to the PDF reader | only a name ending in `.pdf` is accepted; any other name gets 400 "Invalid file type. Only PDF allowed" | not executed | Routes.UploadAcceptsImageAsWritten | Routes.UploadRejectsImage |
| frontend/src/pages/EvaluationHistory.jsx:222-236 | the printable report calls `.map` on `strengths` and `missing_points`, which the card and modal views accept as newline-separated text | a record whose `strengths` is the text "Clear\nConcise" makes the download handler throw | the report lists a text's non-blank lines as points, as the card and modal views do | not executed | History.ReportAsWrittenFailsOnText | History.ReportOfTextPoints |
