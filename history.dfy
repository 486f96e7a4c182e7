/**
 * The evaluation history page (`pages/EvaluationHistory.jsx`): the fetched records, the subset the
 * four filters keep, the teacher names offered by the teacher filter, the card and modal views, and
 * the printable report. Records are JSON values as the routes return them. A record's time is a
 * `Date` value holding milliseconds since the epoch: it stands for the date text the routes send and
 * the page parses back. The lower bounds of the date filter are computed from the current time, which
 * is an input here, as are the outcomes of the requests.
 */
module History {
  import opened Wrappers
  import opened Text
  import opened Json
  import opened Frontend
  import Seqs

  const All := "all"
  const Today := "today"
  const Week := "week"
  const Month := "month"

  const NotAvailable := "N/A"
  const TextContent := "Text Content"
  const DefaultColor := "var(--text-secondary)"
  const LoadFailed := "Failed to load evaluation history"
  const DeleteFailed := "Failed to delete evaluation"
  /** The engine's `TypeError` message when the fetched body holds no list of evaluations. */
  const NotAList := "evaluations.map is not a function"
  /** The engine's `TypeError` message when the report maps over strengths given as text. */
  const MapNotAFunction := "evaluation.strengths.map is not a function"
  /** The same for the list of missing points. */
  const MissingPointsMapNotAFunction := "evaluation.missing_points.map is not a function"
  /** The engine's `TypeError` message when an answer field is neither text nor empty. */
  const TrimNotAFunction := "text.trim is not a function"
  /** The engine's `TypeError` message when the name search meets a name that is not text. */
  const NameNotText := "e.student_name?.toLowerCase is not a function"

  // ---------------------------------------------------------------- filters

  /** The four filter inputs. */
  datatype Criteria = Criteria(searchStudent: string, searchRollNo: string, selectedTeacher: string, dateFilter: string)

  const DefaultCriteria := Criteria("", "", All, All)

  /**
   * The lower bounds the date filter may use, as `new Date()` adjusted when the filter runs:
   * local midnight today, seven calendar days ago, one calendar month ago, and now itself.
   */
  datatype Clock = Clock(now: int, startOfToday: int, weekAgo: int, monthAgo: int)

  /** `startDate` for a date filter other than `'all'`. */
  function DateBound(dateFilter: string, clock: Clock): (r: int)
    ensures dateFilter == Today ==> r == clock.startOfToday
    ensures dateFilter == Week ==> r == clock.weekAgo
    ensures dateFilter == Month ==> r == clock.monthAgo
    ensures dateFilter !in {Today, Week, Month} ==> r == clock.now
  {
    if dateFilter == Today then clock.startOfToday
    else if dateFilter == Week then clock.weekAgo
    else if dateFilter == Month then clock.monthAgo
    else clock.now
  }

  /** `new Date(v)` as milliseconds, or None for an invalid date. */
  function Timestamp(v: Value): Option<int> {
    match v
    case Date(t) => Some(t)
    case Num(n) => Some(n)
    case _ => None
  }

  /** `new Date(e.created_at || e.date)`. */
  function RecordTime(e: Value): Option<int> {
    Timestamp(if JsTruthy(Member(e, "created_at")) then Member(e, "created_at") else Member(e, "date"))
  }

  /** `v?.toString()`, or None for a missing value. */
  function RollText(v: Value): Option<string> {
    match v
    case Str(s) => Some(s)
    case Num(n) => Some(IntToString(n))
    case Bool(b) => Some(if b then "true" else "false")
    case _ => None
  }

  /** The name filter: the lower-cased name contains the lower-cased, untrimmed search text. */
  predicate NameMatches(search: string, e: Value) {
    Member(e, "student_name").Str? && Contains(Lower(Member(e, "student_name").s), Lower(search))
  }

  /** `e.student_name?.toLowerCase()` raises for a name that is neither text nor missing. */
  predicate NameThrows(e: Value) {
    !Member(e, "student_name").Str? && !Member(e, "student_name").Null?
  }

  /**
   * `records.filter(e => e.student_name?.toLowerCase().includes(search.toLowerCase()))`: the
   * records whose name contains the search, or the `TypeError` of a name that is not text.
   */
  function FilterByName(search: string, records: seq<Value>): (r: Result<seq<Value>, string>)
    ensures r.Err? <==> exists i :: 0 <= i < |records| && NameThrows(records[i])
    ensures r.Err? ==> r.error == NameNotText
    ensures r.Ok? ==> r.value == Seqs.Filter(records, e => NameMatches(search, e))
  {
    if records == [] then Ok([])
    else if NameThrows(records[0]) then Err(NameNotText)
    else
      var rest := FilterByName(search, records[1..]);
      assert forall i :: 1 <= i < |records| ==> records[i] == records[1..][i - 1];
      if rest.Err? then Err(rest.error)
      else Ok((if NameMatches(search, records[0]) then [records[0]] else []) + rest.value)
  }

  /** The roll number filter: the number's text contains the search text, case and all. */
  predicate RollMatches(search: string, e: Value) {
    RollText(Member(e, "student_rollno")).Some? && Contains(RollText(Member(e, "student_rollno")).value, search)
  }

  /** The teacher filter: exactly the selected name. */
  predicate TeacherMatches(teacher: string, e: Value) {
    Member(e, "teacher_name") == Str(teacher)
  }

  /** The date filter: a valid time no earlier than the bound. */
  predicate DateMatches(bound: int, e: Value) {
    RecordTime(e).Some? && RecordTime(e).value >= bound
  }

  /** Filter `k` of the four, which passes everything while it is inactive. */
  predicate Condition(c: Criteria, clock: Clock, k: nat, e: Value) {
    if k == 0 then !IsBlank(c.searchStudent) ==> NameMatches(c.searchStudent, e)
    else if k == 1 then !IsBlank(c.searchRollNo) ==> RollMatches(c.searchRollNo, e)
    else if k == 2 then c.selectedTeacher != All ==> TeacherMatches(c.selectedTeacher, e)
    else c.dateFilter != All ==> DateMatches(DateBound(c.dateFilter, clock), e)
  }

  /** The first `k` filters together. */
  predicate Stage(c: Criteria, clock: Clock, k: nat, e: Value)
    decreases k
  {
    k == 0 || (Stage(c, clock, k - 1, e) && Condition(c, clock, k - 1, e))
  }

  /** All four filters together. */
  predicate Matches(c: Criteria, clock: Clock, e: Value) {
    Stage(c, clock, 4, e)
  }

  /** The records the page shows for the criteria: the fetched ones that pass every active filter. */
  function FilterAll(records: seq<Value>, c: Criteria, clock: Clock): seq<Value> {
    Seqs.Filter(records, e => Matches(c, clock, e))
  }

  /** A record passes exactly when it passes each active filter. */
  lemma MatchesIff(c: Criteria, clock: Clock, e: Value)
    ensures Matches(c, clock, e) <==>
      (!IsBlank(c.searchStudent) ==> NameMatches(c.searchStudent, e)) &&
      (!IsBlank(c.searchRollNo) ==> RollMatches(c.searchRollNo, e)) &&
      (c.selectedTeacher != All ==> TeacherMatches(c.selectedTeacher, e)) &&
      (c.dateFilter != All ==> DateMatches(DateBound(c.dateFilter, clock), e))
  {
  }

  /** The filtered list keeps the fetched order and holds exactly the matching records. */
  lemma FilterAllSubsequence(records: seq<Value>, c: Criteria, clock: Clock)
    ensures Seqs.IsSubsequence(FilterAll(records, c, clock), records)
    ensures forall e :: e in FilterAll(records, c, clock) <==> e in records && Matches(c, clock, e)
  {
    Seqs.FilterIsSubsequence(records, e => Matches(c, clock, e));
  }

  /** With the initial criteria every record is shown, in order. */
  lemma DefaultCriteriaKeepsAll(records: seq<Value>, clock: Clock)
    ensures FilterAll(records, DefaultCriteria, clock) == records
  {
    assert IsBlank("");
    Seqs.FilterKeepsAll(records, e => Matches(DefaultCriteria, clock, e));
  }

  /** A search made of spaces is no search: it is the same as an empty one. */
  lemma BlankSearchInactive(records: seq<Value>, c: Criteria, clock: Clock)
    requires IsBlank(c.searchStudent) && IsBlank(c.searchRollNo)
    ensures FilterAll(records, c, clock) == FilterAll(records, c.(searchStudent := "", searchRollNo := ""), clock)
  {
    var c' := c.(searchStudent := "", searchRollNo := "");
    assert IsBlank("");
    Seqs.FilterExtensional(records, e => Matches(c, clock, e), e => Matches(c', clock, e));
  }

  /**
   * The search text is trimmed only to decide whether the name filter is active: a leading space
   * stays part of the text searched for.
   */
  lemma NameSearchNotTrimmed()
    ensures var e := Obj(map["student_name" := Str("Ann")]);
      !NameMatches(" ann", e) && NameMatches("ann", e)
  {
    var e := Obj(map["student_name" := Str("Ann")]);
    assert Lower("Ann") == "ann";
    assert Lower(" ann") == " ann";
    assert IsPrefix("ann", "ann");
    assert !Contains("n", " ann");
    assert !Contains("nn", " ann");
  }

  /** A record without a student name is dropped while the name filter is active. */
  lemma NamelessDroppedByNameFilter(c: Criteria, clock: Clock, e: Value)
    requires !IsBlank(c.searchStudent) && !Member(e, "student_name").Str?
    ensures !Matches(c, clock, e)
  {
  }

  /** Filter `k` and the stages around it, for the step-by-step filtering. */
  lemma StageStep(records: seq<Value>, c: Criteria, clock: Clock, k: nat, q: Value -> bool)
    requires k < 4
    requires forall e :: Condition(c, clock, k, e) == q(e)
    ensures Seqs.Filter(Seqs.Filter(records, e => Stage(c, clock, k, e)), q) == Seqs.Filter(records, e => Stage(c, clock, k + 1, e))
  {
    Seqs.FilterFilter(records, e => Stage(c, clock, k, e), q, e => Stage(c, clock, k + 1, e));
  }

  /** An active name filter is filter 0. */
  lemma NameCondition(c: Criteria, clock: Clock)
    requires !IsBlank(c.searchStudent)
    ensures forall e :: Condition(c, clock, 0, e) == NameMatches(c.searchStudent, e)
  {
  }

  /** An inactive filter `k` leaves the stage as it was. */
  lemma StageSkip(records: seq<Value>, c: Criteria, clock: Clock, k: nat)
    requires k < 4
    requires forall e :: Condition(c, clock, k, e)
    ensures Seqs.Filter(records, e => Stage(c, clock, k, e)) == Seqs.Filter(records, e => Stage(c, clock, k + 1, e))
  {
    Seqs.FilterExtensional(records, e => Stage(c, clock, k, e), e => Stage(c, clock, k + 1, e));
  }

  /**
   * Filter `k`, after the name filter, narrows the records that passed the filters before it,
   * when it is active.
   */
  method Narrow(records: seq<Value>, filtered: seq<Value>, c: Criteria, clock: Clock, k: nat) returns (r: seq<Value>)
    requires 1 <= k < 4
    requires filtered == Seqs.Filter(records, e => Stage(c, clock, k, e))
    ensures r == Seqs.Filter(records, e => Stage(c, clock, k + 1, e))
  {
    if k == 1 {
      r := NarrowByRollNo(records, filtered, c, clock);
    } else if k == 2 {
      r := NarrowByTeacher(records, filtered, c, clock);
    } else {
      r := NarrowByDate(records, filtered, c, clock);
    }
  }

  /** The name filter raises when it is active and some record's name is not text. */
  predicate FilterThrows(records: seq<Value>, c: Criteria) {
    !IsBlank(c.searchStudent) && exists i :: 0 <= i < |records| && NameThrows(records[i])
  }

  /** The name filter, which comes first and so sees every record; it raises as `FilterThrows` says. */
  method NarrowByName(records: seq<Value>, filtered: seq<Value>, c: Criteria, clock: Clock) returns (r: Result<seq<Value>, string>)
    requires filtered == Seqs.Filter(records, e => Stage(c, clock, 0, e))
    ensures FilterThrows(records, c) ==> r == Err(NameNotText)
    ensures !FilterThrows(records, c) ==> r == Ok(Seqs.Filter(records, e => Stage(c, clock, 1, e)))
  {
    if !IsBlank(c.searchStudent) {
      var search := c.searchStudent;
      Seqs.FilterKeepsAll(records, e => Stage(c, clock, 0, e));
      r := FilterByName(search, filtered);
      if r.Ok? {
        NameCondition(c, clock);
        StageStep(records, c, clock, 0, e => NameMatches(search, e));
      }
    } else {
      StageSkip(records, c, clock, 0);
      r := Ok(filtered);
    }
  }

  method NarrowByRollNo(records: seq<Value>, filtered: seq<Value>, c: Criteria, clock: Clock) returns (r: seq<Value>)
    requires filtered == Seqs.Filter(records, e => Stage(c, clock, 1, e))
    ensures r == Seqs.Filter(records, e => Stage(c, clock, 2, e))
  {
    if !IsBlank(c.searchRollNo) {
      var search := c.searchRollNo;
      StageStep(records, c, clock, 1, e => RollMatches(search, e));
      r := Seqs.Filter(filtered, e => RollMatches(search, e));
    } else {
      StageSkip(records, c, clock, 1);
      r := filtered;
    }
  }

  method NarrowByTeacher(records: seq<Value>, filtered: seq<Value>, c: Criteria, clock: Clock) returns (r: seq<Value>)
    requires filtered == Seqs.Filter(records, e => Stage(c, clock, 2, e))
    ensures r == Seqs.Filter(records, e => Stage(c, clock, 3, e))
  {
    if c.selectedTeacher != All {
      var teacher := c.selectedTeacher;
      StageStep(records, c, clock, 2, e => TeacherMatches(teacher, e));
      r := Seqs.Filter(filtered, e => TeacherMatches(teacher, e));
    } else {
      StageSkip(records, c, clock, 2);
      r := filtered;
    }
  }

  method NarrowByDate(records: seq<Value>, filtered: seq<Value>, c: Criteria, clock: Clock) returns (r: seq<Value>)
    requires filtered == Seqs.Filter(records, e => Stage(c, clock, 3, e))
    ensures r == Seqs.Filter(records, e => Stage(c, clock, 4, e))
  {
    if c.dateFilter != All {
      var bound := DateBound(c.dateFilter, clock);
      StageStep(records, c, clock, 3, e => DateMatches(bound, e));
      r := Seqs.Filter(filtered, e => DateMatches(bound, e));
    } else {
      StageSkip(records, c, clock, 3);
      r := filtered;
    }
  }

  /**
   * The body of `applyFilters`: start from every record and let each active filter narrow the
   * list in turn. An active name search over a name that is not text raises instead.
   */
  method FilterRecords(records: seq<Value>, c: Criteria, clock: Clock) returns (r: Result<seq<Value>, string>)
    ensures FilterThrows(records, c) ==> r == Err(NameNotText)
    ensures !FilterThrows(records, c) ==> r == Ok(FilterAll(records, c, clock))
  {
    var filtered := records;
    Seqs.FilterKeepsAll(records, e => Stage(c, clock, 0, e));
    var byName := NarrowByName(records, filtered, c, clock);
    if byName.Err? {
      return Err(byName.error);
    }
    filtered := byName.value;
    var k := 1;
    while k < 4
      invariant 1 <= k <= 4
      invariant filtered == Seqs.Filter(records, e => Stage(c, clock, k, e))
    {
      filtered := Narrow(records, filtered, c, clock, k);
      k := k + 1;
    }
    Seqs.FilterExtensional(records, e => Stage(c, clock, 4, e), e => Matches(c, clock, e));
    return Ok(filtered);
  }

  // ---------------------------------------------------------------- fetched lists

  /** `Array.isArray(data) ? data : (data.evaluations || data || [])`, when that is a list. */
  function EvaluationList(data: Value): (r: Option<seq<Value>>)
    ensures data.Arr? ==> r == Some(data.items)
    ensures data.Obj? && Member(data, "evaluations").Arr? ==> r == Some(Member(data, "evaluations").items)
    ensures data.Null? ==> r.None?
  {
    if data.Arr? then Some(data.items)
    else if data.Null? then None
    else
      var inner := if JsTruthy(Member(data, "evaluations")) then Member(data, "evaluations")
                   else if JsTruthy(data) then data else Arr([]);
      if inner.Arr? then Some(inner.items) else None
  }

  /** `evaluations.map(e => e.teacher_name)`. */
  function TeacherNames(records: seq<Value>): (r: seq<Value>)
    ensures |r| == |records| && forall i :: 0 <= i < |records| ==> r[i] == Member(records[i], "teacher_name")
  {
    seq(|records|, i requires 0 <= i < |records| => Member(records[i], "teacher_name"))
  }

  /** `[...new Set(names.filter(t => t))]`. */
  function DistinctTeachers(records: seq<Value>): seq<Value> {
    Seqs.Distinct(Seqs.Filter(TeacherNames(records), JsTruthy))
  }

  /**
   * The teacher options are the truthy names of the fetched records, each once, in the order in
   * which they first occur.
   */
  lemma DistinctTeachersSpec(records: seq<Value>)
    ensures var r := DistinctTeachers(records);
      Seqs.NoDuplicates(r) &&
      (forall t :: t in r <==> JsTruthy(t) && exists i :: 0 <= i < |records| && Member(records[i], "teacher_name") == t) &&
      Seqs.InFirstOccurrenceOrder(r, Seqs.Filter(TeacherNames(records), JsTruthy))
  {
    var names := TeacherNames(records);
    Seqs.DistinctFirstOccurrenceOrder(Seqs.Filter(names, JsTruthy));
    forall t ensures t in names <==> exists i :: 0 <= i < |records| && Member(records[i], "teacher_name") == t {
      if t in names {
        var i :| 0 <= i < |names| && names[i] == t;
        assert Member(records[i], "teacher_name") == t;
      }
    }
  }

  /** The error shown when fetching fails: the server's, else the message, else the fallback. */
  function LoadError(f: Failure): string {
    ServerErrorOr(f, if f.message != [] then f.message else LoadFailed)
  }

  /** The error shown when deleting fails. */
  function DeleteError(f: Failure): string {
    ServerErrorOr(f, if f.message != [] then f.message else DeleteFailed)
  }

  // ---------------------------------------------------------------- page state

  /** Every piece of the page's state. */
  datatype Page = Page(
    evaluations: seq<Value>,
    filteredEvaluations: seq<Value>,
    loading: bool,
    error: string,
    selectedEvaluation: Option<Value>,
    expandedId: Option<Value>,
    searchStudent: string,
    searchRollNo: string,
    selectedTeacher: string,
    dateFilter: string,
    teachers: seq<Value>,
    crashed: Option<string>)  // the `TypeError` the filter effect raised, which takes the page down

  const Initial := Page([], [], true, "", None, None, "", "", All, All, [], None)

  function CriteriaOf(p: Page): Criteria {
    Criteria(p.searchStudent, p.searchRollNo, p.selectedTeacher, p.dateFilter)
  }

  /** The shown list is what the filters make of the fetched list. */
  predicate Settled(p: Page, clock: Clock) {
    p.filteredEvaluations == FilterAll(p.evaluations, CriteriaOf(p), clock)
  }

  /** `fetchEvaluations` up to its `await`. */
  function StartFetchStep(p: Page): Page {
    p.(loading := true, error := "")
  }

  /** `fetchEvaluations` after its `await`: the list, its teachers, and the list shown unfiltered. */
  function FinishFetchStep(p: Page, fetched: Result<Value, Failure>): Page {
    match fetched
    case Ok(data) =>
      (match EvaluationList(data)
       case Some(items) =>
         p.(evaluations := items, teachers := DistinctTeachers(items), filteredEvaluations := items, error := "", loading := false)
       case None => p.(evaluations := [], filteredEvaluations := [], error := NotAList, loading := false))
    case Err(f) => p.(evaluations := [], filteredEvaluations := [], error := LoadError(f), loading := false)
  }

  /**
   * The effect that runs `applyFilters` after the criteria or the fetched list change. Nothing
   * catches what it raises, so a raised `TypeError` takes the page down.
   */
  function ApplyFiltersStep(p: Page, clock: Clock): (q: Page)
    ensures FilterThrows(p.evaluations, CriteriaOf(p)) ==> q == p.(crashed := Some(NameNotText))
    ensures !FilterThrows(p.evaluations, CriteriaOf(p)) ==>
              Settled(q, clock) && q == p.(filteredEvaluations := q.filteredEvaluations)
  {
    if FilterThrows(p.evaluations, CriteriaOf(p)) then p.(crashed := Some(NameNotText))
    else p.(filteredEvaluations := FilterAll(p.evaluations, CriteriaOf(p), clock))
  }

  /** `handleDeleteEvaluation`: the page afterwards. */
  function DeleteStep(p: Page, id: Value, confirmed: bool, deleted: Result<(), Failure>): Page {
    if !confirmed then p
    else match deleted
      case Ok(_) => p.(evaluations := WithoutId(p.evaluations, id), filteredEvaluations := WithoutId(p.filteredEvaluations, id), error := "")
      case Err(f) => p.(error := DeleteError(f))
  }

  /** Clicking a card's header: it opens, or closes when it was the open one. */
  function ToggleStep(p: Page, id: Value): Page {
    p.(expandedId := if p.expandedId == Some(id) then None else Some(id))
  }

  /**
   * A successful fetch shows every record until the filter effect runs; then the filters apply,
   * or, under a name search, a name that is not text takes the page down.
   */
  lemma FetchThenFilter(p: Page, data: Value, clock: Clock)
    requires EvaluationList(data).Some?
    ensures var q := FinishFetchStep(p, Ok(data));
      q.evaluations == EvaluationList(data).value && q.filteredEvaluations == q.evaluations &&
      q.teachers == DistinctTeachers(q.evaluations) && q.error == "" && !q.loading &&
      (!FilterThrows(q.evaluations, CriteriaOf(p)) ==>
         ApplyFiltersStep(q, clock).filteredEvaluations == FilterAll(q.evaluations, CriteriaOf(p), clock)) &&
      (FilterThrows(q.evaluations, CriteriaOf(p)) ==> ApplyFiltersStep(q, clock).crashed == Some(NameNotText))
  {
  }

  /**
   * The routes store any truthy name, so a record can carry a number there: searching by name
   * then takes the page down instead of showing a list.
   */
  lemma NumericNameTakesPageDown(p: Page, clock: Clock)
    requires p.evaluations == [Obj(map["student_name" := Num(5)])] && p.searchStudent == "a"
    ensures ApplyFiltersStep(p, clock).crashed == Some(NameNotText)
    ensures ApplyFiltersStep(p, clock).filteredEvaluations == p.filteredEvaluations
  {
    assert NameThrows(p.evaluations[0]);
    assert "a"[0] == 'a' && !IsSpace('a');
  }

  /** A failed fetch empties both lists and keeps the teacher options; the error is never empty. */
  lemma FailedFetchEmpties(p: Page, f: Failure)
    ensures var q := FinishFetchStep(p, Err(f));
      q.evaluations == [] && q.filteredEvaluations == [] && q.teachers == p.teachers && q.error != [] && !q.loading
  {
  }

  /**
   * Deleting from both lists directly gives the list the filter effect would compute from the new
   * fetched list: a settled page stays settled.
   */
  lemma DeleteKeepsSettled(p: Page, id: Value, confirmed: bool, deleted: Result<(), Failure>, clock: Clock)
    requires Settled(p, clock)
    ensures Settled(DeleteStep(p, id, confirmed, deleted), clock)
  {
    if confirmed && deleted.Ok? {
      var c := CriteriaOf(p);
      Seqs.FilterCommutes(p.evaluations, e => Matches(c, clock, e), x => IdOf(x) != id);
    }
  }

  /** A successful delete removes exactly the records with that id from both lists, keeping the order of the rest. */
  lemma DeleteRemovesExactly(p: Page, id: Value)
    ensures var q := DeleteStep(p, id, true, Ok(()));
      Seqs.IsSubsequence(q.evaluations, p.evaluations) && Seqs.IsSubsequence(q.filteredEvaluations, p.filteredEvaluations) &&
      (forall x :: x in q.evaluations <==> x in p.evaluations && IdOf(x) != id) &&
      (forall x :: x in q.filteredEvaluations <==> x in p.filteredEvaluations && IdOf(x) != id) &&
      q.error == ""
  {
    WithoutIdExact(p.evaluations, id);
    WithoutIdExact(p.filteredEvaluations, id);
  }

  /** A declined or failed delete keeps both lists; a failure shows an error that is never empty. */
  lemma DeclinedOrFailedDeleteKeepsLists(p: Page, id: Value, f: Failure, deleted: Result<(), Failure>)
    ensures DeleteStep(p, id, false, deleted) == p
    ensures var q := DeleteStep(p, id, true, Err(f));
      q.evaluations == p.evaluations && q.filteredEvaluations == p.filteredEvaluations && q.error != []
  {
  }

  /** The teacher options are not recomputed on delete: a teacher whose last record went stays offered. */
  lemma DeleteKeepsTeacherOptions(p: Page, id: Value, deleted: Result<(), Failure>)
    ensures DeleteStep(p, id, true, deleted).teachers == p.teachers
  {
  }

  /** At most one card is open; toggling it twice closes it again. */
  lemma ToggleTwice(p: Page, id: Value)
    requires p.expandedId.None?
    ensures ToggleStep(p, id).expandedId == Some(id)
    ensures ToggleStep(ToggleStep(p, id), id) == p
  {
  }

  /** Opening another card closes the open one. */
  lemma ToggleOther(p: Page, id: Value, other: Value)
    requires p.expandedId == Some(other) && id != other
    ensures ToggleStep(p, id).expandedId == Some(id)
  {
  }

  // ---------------------------------------------------------------- display helpers

  predicate IsWordChar(c: char) {
    ('a' <= c <= 'z') || ('A' <= c <= 'Z') || ('0' <= c <= '9') || c == '_'
  }

  /** The length of the run of word characters that ends `t`. */
  function TrailingWordLength(t: string): (n: nat)
    ensures n <= |t|
    ensures forall j :: |t| - n <= j < |t| ==> IsWordChar(t[j])
    ensures n < |t| ==> !IsWordChar(t[|t| - 1 - n])
  {
    if t == [] || !IsWordChar(t[|t| - 1]) then 0 else 1 + TrailingWordLength(t[..|t| - 1])
  }

  /** `/\.\w+$/.test(t)`, by scanning back over the trailing word characters. */
  predicate HasExtension(t: string) {
    var n := TrailingWordLength(t);
    1 <= n < |t| && t[|t| - 1 - n] == '.'
  }

  /** The pattern's meaning: a dot followed by one or more word characters up to the end. */
  predicate EndsWithDotWord(t: string) {
    exists i :: 0 <= i < |t| - 1 && t[i] == '.' && forall j :: i < j < |t| ==> IsWordChar(t[j])
  }

  lemma HasExtensionIff(t: string)
    ensures HasExtension(t) <==> EndsWithDotWord(t)
  {
    var n := TrailingWordLength(t);
    if EndsWithDotWord(t) {
      var i :| 0 <= i < |t| - 1 && t[i] == '.' && forall j :: i < j < |t| ==> IsWordChar(t[j]);
      assert !IsWordChar(t[i]);
      if n < |t| {
        assert i == |t| - 1 - n;
      }
    }
    if HasExtension(t) {
      assert 0 <= |t| - 1 - n < |t| - 1;
    }
  }

  /** `getDisplayName` of a text: N/A for nothing, the trimmed text for a file name, else "Text Content". */
  function DisplayName(text: string): (r: string)
    ensures text == [] ==> r == NotAvailable
    ensures text != [] && HasExtension(Strip(text)) ==> r == Strip(text)
    ensures text != [] && !HasExtension(Strip(text)) ==> r == TextContent
  {
    if text == [] then NotAvailable
    else if HasExtension(Strip(text)) then Strip(text)
    else TextContent
  }

  /** "N/A" only for an empty field: a non-empty text yields a file name or "Text Content". */
  lemma DisplayNameNotAvailableIff(text: string)
    ensures DisplayName(text) == NotAvailable <==> text == []
  {
    if text != [] && HasExtension(Strip(text)) {
      assert Strip(text) != NotAvailable by {
        assert TrailingWordLength(NotAvailable) == 1;
      }
    }
  }

  /** `getDisplayName` of a record field: None where `text.trim` would throw. */
  function AnswerName(v: Value): Option<string> {
    if !JsTruthy(v) then Some(NotAvailable)
    else if v.Str? then Some(DisplayName(v.s))
    else None
  }

  const GradeKeys: set<string> := {"A+", "A", "B+", "B", "C+", "C", "D", "F"}

  /** `getGradeColor`: green for A grades, blue for B, amber for C, red for D and F. */
  function GradeColor(grade: string): (r: string)
    ensures r != DefaultColor <==> grade in GradeKeys
  {
    if grade == "A+" || grade == "A" then "#10b981"
    else if grade == "B+" || grade == "B" then "#3b82f6"
    else if grade == "C+" || grade == "C" then "#f59e0b"
    else if grade == "D" || grade == "F" then "#ef4444"
    else DefaultColor
  }

  /** A plus grade shares its letter's colour, and the fallback grade has none of its own. */
  lemma GradeColorByLetter()
    ensures GradeColor("A+") == GradeColor("A") && GradeColor("B+") == GradeColor("B") && GradeColor("C+") == GradeColor("C")
    ensures GradeColor("D") == GradeColor("F") && GradeColor(NotAvailable) == DefaultColor
  {
  }

  /** The non-blank lines of a text, untrimmed: `s.split('\n').filter(x => x.trim())`. */
  function PointLines(s: string): seq<string> {
    Seqs.Filter(Split(s, '\n'), line => !IsBlank(line))
  }

  /** The non-blank lines of a text as the points of a section. */
  function LinePoints(s: string): (r: seq<Value>)
    ensures |r| == |PointLines(s)| && forall i :: 0 <= i < |r| ==> r[i] == Str(PointLines(s)[i])
  {
    seq(|PointLines(s)|, i requires 0 <= i < |PointLines(s)| => Str(PointLines(s)[i]))
  }

  /** What a points section of the card and modal views does with its field. */
  datatype Points = Shown(items: seq<Value>) | Omitted | Throws

  /**
   * The points of the card and modal views, guarded by `field && (...)`: a falsy field omits the
   * section, a list is shown as it is, a text by its non-blank lines, and anything else throws at `split`.
   */
  function NormalizePoints(v: Value): (r: Points)
    ensures r.Omitted? <==> !JsTruthy(v)
    ensures v.Arr? ==> r == Shown(v.items)
    ensures v.Str? && v.s != [] ==>
      r.Shown? && |r.items| == |PointLines(v.s)| && forall i :: 0 <= i < |r.items| ==> r.items[i] == Str(PointLines(v.s)[i])
    ensures r.Throws? <==> JsTruthy(v) && !v.Arr? && !v.Str?
  {
    match v
    case Arr(items) => Shown(items)
    case Str(s) => if s == [] then Omitted else Shown(LinePoints(s))
    case _ => if JsTruthy(v) then Throws else Omitted
  }

  /** The kept lines are lines of the text, in order, none blank and none holding a newline. */
  lemma PointLinesSpec(s: string)
    ensures Seqs.IsSubsequence(PointLines(s), Split(s, '\n'))
    ensures forall i :: 0 <= i < |PointLines(s)| ==> !IsBlank(PointLines(s)[i]) && '\n' !in PointLines(s)[i]
  {
    Seqs.FilterIsSubsequence(Split(s, '\n'), line => !IsBlank(line));
    forall i | 0 <= i < |PointLines(s)|
      ensures !IsBlank(PointLines(s)[i]) && '\n' !in PointLines(s)[i]
    {
      assert PointLines(s)[i] in PointLines(s);
    }
  }

  /** A text without blank lines is split into lines that join back into it. */
  lemma PointLinesRoundTrip(s: string)
    requires forall i :: 0 <= i < |Split(s, '\n')| ==> !IsBlank(Split(s, '\n')[i])
    ensures Join(PointLines(s), '\n') == s
  {
    Seqs.FilterKeepsAll(Split(s, '\n'), line => !IsBlank(line));
    JoinSplit(s, '\n');
  }

  // ---------------------------------------------------------------- the printable report

  /** JavaScript's `String(v)`, as a template literal renders it. */
  function Display(v: Value): string
    decreases v
  {
    match v
    case Null => "null"
    case Bool(b) => if b then "true" else "false"
    case Num(n) => IntToString(n)
    case Str(s) => s
    case Arr(items) => Join(seq(|items|, i requires 0 <= i < |items| => if items[i].Null? then "" else Display(items[i])), ',')
    case Obj(_) => "[object Object]"
    case Oid(hex) => hex
    case Date(t) => IntToString(t)
  }

  /** The first truthy candidate decides `a || b || fallback`. */
  predicate FirstTruthyAt(vs: seq<Value>, i: int) {
    0 <= i < |vs| && JsTruthy(vs[i]) && forall j :: 0 <= j < i ==> !JsTruthy(vs[j])
  }

  /** `a || b || fallback` for the report's fields, rendered: the first truthy candidate, else the fallback. */
  function FirstTruthy(vs: seq<Value>, fallback: string): (r: string)
    ensures (forall i :: 0 <= i < |vs| ==> !JsTruthy(vs[i])) ==> r == fallback
    ensures forall i :: FirstTruthyAt(vs, i) ==> r == Display(vs[i])
  {
    if vs == [] then fallback
    else if JsTruthy(vs[0]) then Display(vs[0])
    else FirstTruthy(vs[1..], fallback)
  }

  /** What the report shows. The date, formatted for the `en-IN` locale, and the generation time in the footer are not part of it. */
  datatype Report = Report(
    studentName: string,
    rollNo: string,
    teacherName: string,
    marks: string,
    maxMarks: string,
    percentage: string,
    grade: string,
    feedback: Option<string>,
    strengths: seq<string>,
    improvements: seq<string>,
    modelAnswer: string,
    studentAnswer: string)

  function Rendered(items: seq<Value>): seq<string> {
    seq(|items|, i requires 0 <= i < |items| => Display(items[i]))
  }

  /** The report from a record and the point lists its two list sections show (a section is omitted when its list is empty). */
  function ReportWith(e: Value, strengths: seq<string>, improvements: seq<string>): (r: Result<Report, string>)
    ensures r.Ok? <==> AnswerName(Member(e, "model_answer")).Some? && AnswerName(Member(e, "student_answer")).Some?
  {
    var modelAnswer := AnswerName(Member(e, "model_answer"));
    var studentAnswer := AnswerName(Member(e, "student_answer"));
    if modelAnswer.None? || studentAnswer.None? then Err(TrimNotAFunction)
    else
      var feedback := Member(e, "feedback");
      Ok(Report(
        FirstTruthy([Member(e, "student_name")], NotAvailable),
        FirstTruthy([Member(e, "student_rollno")], NotAvailable),
        FirstTruthy([Member(e, "teacher_name")], NotAvailable),
        FirstTruthy([Member(e, "marks_awarded"), Member(e, "marks")], "0"),
        FirstTruthy([Member(e, "max_marks")], "0"),
        FirstTruthy([Member(e, "percentage")], "0"),
        FirstTruthy([Member(e, "grade")], NotAvailable),
        if JsTruthy(feedback) then Some(Display(feedback)) else None,
        strengths, improvements, modelAnswer.value, studentAnswer.value))
  }

  /** A points field as `handleDownloadEvaluation` reads it: `v && v.length > 0 ? v.map(...) : ''`. */
  function PointsAsWritten(v: Value, failure: string): Result<seq<string>, string> {
    match v
    case Arr(items) => Ok(Rendered(items))
    case Str(s) => if s == [] then Ok([]) else Err(failure)
    case _ => Ok([])
  }

  /** `handleDownloadEvaluation` as written: a points field holding text makes it throw. */
  function ReportAsWritten(e: Value): (r: Result<Report, string>)
    ensures Member(e, "strengths").Str? && Member(e, "strengths").s != [] ==> r == Err(MapNotAFunction)
    ensures (!(Member(e, "strengths").Str? && Member(e, "strengths").s != []) &&
             Member(e, "missing_points").Str? && Member(e, "missing_points").s != []) ==>
              r == Err(MissingPointsMapNotAFunction)
    ensures r.Ok? <==>
              !(Member(e, "strengths").Str? && Member(e, "strengths").s != []) &&
              !(Member(e, "missing_points").Str? && Member(e, "missing_points").s != []) &&
              AnswerName(Member(e, "model_answer")).Some? && AnswerName(Member(e, "student_answer")).Some?
  {
    var strengths := PointsAsWritten(Member(e, "strengths"), MapNotAFunction);
    var improvements := PointsAsWritten(Member(e, "missing_points"), MissingPointsMapNotAFunction);
    if strengths.Err? then Err(strengths.error)
    else if improvements.Err? then Err(improvements.error)
    else ReportWith(e, strengths.value, improvements.value)
  }

  /** A points field normalised as the card and modal views do, with an omitted or throwing section read as no points. */
  function ReportPoints(v: Value): seq<string> {
    match NormalizePoints(v)
    case Shown(items) => Rendered(items)
    case _ => []
  }

  /** The report with its points normalised as the card and modal views normalise them. */
  function ReportOf(e: Value): Result<Report, string> {
    ReportWith(e, ReportPoints(Member(e, "strengths")), ReportPoints(Member(e, "missing_points")))
  }

  /** A record whose strengths arrive as text, as the card and modal views accept them. */
  const TextPointsRecord := Obj(map["strengths" := Str("Clear\nConcise")])

  /** The report as written throws on that record. */
  lemma ReportAsWrittenFailsOnText()
    ensures ReportAsWritten(TextPointsRecord) == Err(MapNotAFunction)
  {
    assert Member(TextPointsRecord, "strengths") == Str("Clear\nConcise");
  }

  /** The details views show that record's two lines as two points. */
  lemma TextPointsShownAsLines()
    ensures NormalizePoints(Member(TextPointsRecord, "strengths")) == Shown([Str("Clear"), Str("Concise")])
  {
    TwoPointLines();
    PointsOfTwoLines("Clear\nConcise");
  }

  lemma PointsOfTwoLines(s: string)
    requires PointLines(s) == ["Clear", "Concise"]
    ensures NormalizePoints(Str(s)) == Shown([Str("Clear"), Str("Concise")])
  {
    assert s != [] by { assert |PointLines(s)| == 2; }
    var r := NormalizePoints(Str(s)).items;
    assert |r| == 2 && r[0] == Str("Clear") && r[1] == Str("Concise");
    assert r == [Str("Clear"), Str("Concise")];
  }

  /** Where the strengths are text, the corrected report lists exactly its non-blank lines. */
  lemma ReportOfTextStrengths(e: Value, s: string)
    requires Member(e, "strengths") == Str(s)
    requires ReportOf(e).Ok?
    ensures ReportOf(e).value.strengths == PointLines(s)
  {
    var lines := PointLines(s);
    var r := ReportOf(e).value.strengths;
    assert |r| == |lines|;
    forall i | 0 <= i < |r|
      ensures r[i] == lines[i]
    {
      assert NormalizePoints(Str(s)).items[i] == Str(lines[i]);
    }
  }

  /** The corrected report lists the same two points. */
  lemma ReportOfTextPoints()
    ensures ReportOf(TextPointsRecord).Ok?
    ensures ReportOf(TextPointsRecord).value.strengths == ["Clear", "Concise"]
  {
    var e := TextPointsRecord;
    assert Member(e, "strengths") == Str("Clear\nConcise");
    assert Member(e, "model_answer") == Null && Member(e, "student_answer") == Null;
    assert AnswerName(Null) == Some(NotAvailable);
    TwoPointLines();
    ReportOfTextStrengths(e, "Clear\nConcise");
  }

  lemma TwoPointLines()
    ensures PointLines("Clear\nConcise") == ["Clear", "Concise"]
  {
    var parts := ["Clear", "Concise"];
    assert Join(parts, '\n') == "Clear\nConcise" by {
      assert Join(parts[1..], '\n') == "Concise";
    }
    assert '\n' !in parts[0] && '\n' !in parts[1];
    SplitJoin(parts, '\n');
    assert !IsBlank(parts[0]) by { assert !IsSpace(parts[0][0]); }
    assert !IsBlank(parts[1]) by { assert !IsSpace(parts[1][0]); }
    Seqs.FilterKeepsAll(parts, line => !IsBlank(line));
  }

  /**
   * The corrected report fails only where reading an answer field would throw, lists the same
   * points the details views show, and agrees with the report as written wherever that one works.
   */
  lemma ReportOfSpec(e: Value)
    ensures ReportOf(e).Ok? <==> AnswerName(Member(e, "model_answer")).Some? && AnswerName(Member(e, "student_answer")).Some?
    ensures ReportOf(e).Ok? ==>
      (Member(e, "strengths").Str? ==> |ReportOf(e).value.strengths| == |PointLines(Member(e, "strengths").s)|) &&
      (Member(e, "missing_points").Arr? ==> |ReportOf(e).value.improvements| == |Member(e, "missing_points").items|)
    ensures ReportAsWritten(e).Ok? ==> ReportOf(e) == ReportAsWritten(e)
  {
  }

  /** The optional sections: feedback iff it is truthy, each list iff it has points. */
  lemma ReportSections(e: Value)
    requires ReportOf(e).Ok?
    ensures ReportOf(e).value.feedback.Some? <==> JsTruthy(Member(e, "feedback"))
    ensures ReportOf(e).value.strengths == [] <==> !NormalizePoints(Member(e, "strengths")).Shown? || NormalizePoints(Member(e, "strengths")).items == []
    ensures JsTruthy(Member(e, "marks_awarded")) ==> ReportOf(e).value.marks == Display(Member(e, "marks_awarded"))
    ensures !JsTruthy(Member(e, "marks_awarded")) && JsTruthy(Member(e, "marks")) ==>
      ReportOf(e).value.marks == Display(Member(e, "marks"))
    ensures !JsTruthy(Member(e, "marks_awarded")) && !JsTruthy(Member(e, "marks")) ==> ReportOf(e).value.marks == "0"
  {
    var marks := [Member(e, "marks_awarded"), Member(e, "marks")];
    if !JsTruthy(marks[0]) && JsTruthy(marks[1]) {
      assert FirstTruthyAt(marks, 1);
    }
  }

  /**
   * A stored record carries its score under `marks` only, so the report shows that second
   * candidate: a score of 7 reads "7", and a score of 0, which is falsy, reads "0".
   */
  lemma StoredMarksShown()
    ensures FirstTruthy([Null, Num(7)], "0") == "7"
    ensures FirstTruthy([Null, Num(0)], "0") == "0"
    ensures FirstTruthy([Null, Str("0")], "0") == "0"
  {
    assert FirstTruthyAt([Null, Num(7)], 1);
    assert IntToString(7) == "7";
    assert FirstTruthyAt([Null, Str("0")], 1);
  }

  // ---------------------------------------------------------------- the component

  class HistoryPage {
    var evaluations: seq<Value>
    var filteredEvaluations: seq<Value>
    var loading: bool
    var error: string
    var selectedEvaluation: Option<Value>
    var expandedId: Option<Value>
    var searchStudent: string
    var searchRollNo: string
    var selectedTeacher: string
    var dateFilter: string
    var teachers: seq<Value>
    var crashed: Option<string>

    function State(): Page
      reads this
    {
      Page(evaluations, filteredEvaluations, loading, error, selectedEvaluation, expandedId,
           searchStudent, searchRollNo, selectedTeacher, dateFilter, teachers, crashed)
    }

    constructor()
      ensures State() == Initial
    {
      evaluations, filteredEvaluations, loading, error := [], [], true, "";
      selectedEvaluation, expandedId := None, None;
      searchStudent, searchRollNo, selectedTeacher, dateFilter, teachers := "", "", All, All, [];
      crashed := None;
    }

    method StartFetch()
      modifies this
      ensures State() == StartFetchStep(old(State()))
    {
      loading, error := true, "";
    }

    method FinishFetch(fetched: Result<Value, Failure>)
      modifies this
      ensures State() == FinishFetchStep(old(State()), fetched)
    {
      match fetched {
        case Ok(data) =>
          var list := EvaluationList(data);
          if list.Some? {
            ShowFetched(list.value);
            error := "";
          } else {
            ClearLists();
            error := NotAList;
          }
        case Err(f) =>
          error := LoadError(f);
          ClearLists();
      }
      loading := false;
    }

    /** The setters for a fetched list: the list, its teachers, and the list shown. */
    method ShowFetched(items: seq<Value>)
      modifies this
      ensures State() == old(State()).(evaluations := items, teachers := DistinctTeachers(items), filteredEvaluations := items)
    {
      evaluations := items;
      teachers := DistinctTeachers(items);
      filteredEvaluations := items;
    }

    /** The setters of the `catch`: both lists emptied. */
    method ClearLists()
      modifies this
      ensures State() == old(State()).(evaluations := [], filteredEvaluations := [])
    {
      evaluations, filteredEvaluations := [], [];
    }

    /**
     * `applyFilters`: the list shown becomes what the filters keep of the fetched list, unless
     * the name filter raises and takes the page down.
     */
    method ApplyFilters(clock: Clock)
      modifies this
      ensures State() == ApplyFiltersStep(old(State()), clock)
    {
      var filtered := FilterRecords(evaluations, CriteriaOf(State()), clock);
      if filtered.Err? {
        crashed := Some(filtered.error);
      } else {
        filteredEvaluations := filtered.value;
      }
    }

    method SetSearchStudent(text: string)
      modifies this
      ensures State() == old(State()).(searchStudent := text)
    {
      searchStudent := text;
    }

    method SetSearchRollNo(text: string)
      modifies this
      ensures State() == old(State()).(searchRollNo := text)
    {
      searchRollNo := text;
    }

    method SetSelectedTeacher(teacher: string)
      modifies this
      ensures State() == old(State()).(selectedTeacher := teacher)
    {
      selectedTeacher := teacher;
    }

    method SetDateFilter(range: string)
      modifies this
      ensures State() == old(State()).(dateFilter := range)
    {
      dateFilter := range;
    }

    method ToggleExpanded(id: Value)
      modifies this
      ensures State() == ToggleStep(old(State()), id)
    {
      expandedId := if expandedId == Some(id) then None else Some(id);
    }

    /** `handleViewEvaluation` and the modal's close buttons. */
    method ViewEvaluation(evaluation: Option<Value>)
      modifies this
      ensures State() == old(State()).(selectedEvaluation := evaluation)
    {
      selectedEvaluation := evaluation;
    }

    method DeleteEvaluation(id: Value, confirmed: bool, deleted: Result<(), Failure>)
      modifies this
      ensures State() == DeleteStep(old(State()), id, confirmed, deleted)
    {
      if !confirmed {
        return;
      }
      match deleted {
        case Ok(_) =>
          RemoveFromLists(id);
        case Err(f) =>
          error := DeleteError(f);
      }
    }

    /** The setters of a successful delete: the record leaves both lists and the error is cleared. */
    method RemoveFromLists(id: Value)
      modifies this
      ensures State() == old(State()).(evaluations := WithoutId(old(evaluations), id),
                                       filteredEvaluations := WithoutId(old(filteredEvaluations), id), error := "")
    {
      evaluations, filteredEvaluations, error := WithoutId(evaluations, id), WithoutId(filteredEvaluations, id), "";
    }
  }
}
