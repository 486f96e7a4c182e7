/**
 * Post-processing of the language model's reply (`GeminiService.evaluate_answer` in
 * backend/utils/gemini_service.py). The model call and the JSON decoder are inputs: the
 * reply arrives as a `Result` (text, or the message of the exception the call raised) and
 * `json.loads` is an oracle from text to a value or a decode-error message.
 */
module Gemini {
  import opened Wrappers
  import opened Text
  import opened Json

  /** The prompt line naming the question, empty when there is no question. */
  function QuestionContext(question: string): (r: string)
    ensures r == [] <==> question == []
    ensures r != [] ==> r == "\n\nQuestion: " + question
  {
    if question != [] then "\n\nQuestion: " + question else ""
  }

  /** The first index at or after `i` that is not whitespace (`\s*` in a pattern). */
  function SkipSpace(s: string, i: nat): (j: nat)
    requires i <= |s|
    ensures i <= j <= |s|
    ensures forall k :: i <= k < j ==> IsSpace(s[k])
    ensures j < |s| ==> !IsSpace(s[j])
    decreases |s| - i
  {
    if i < |s| && IsSpace(s[i]) then SkipSpace(s, i + 1) else i
  }

  /** A run of three backticks starts at `i`. */
  predicate FenceMarkAt(s: string, i: nat) {
    i + 3 <= |s| && s[i] == '`' && s[i + 1] == '`' && s[i + 2] == '`'
  }

  /** The language tag `json` starts at `i`. */
  predicate JsonTagAt(s: string, i: nat) {
    i + 4 <= |s| && s[i] == 'j' && s[i + 1] == 's' && s[i + 2] == 'o' && s[i + 3] == 'n'
  }

  /** A `}` at `e` followed by optional whitespace and a closing fence. */
  predicate ClosesAt(s: string, e: nat) {
    e < |s| && s[e] == '}' && FenceMarkAt(s, SkipSpace(s, e + 1))
  }

  /** The lazy `.*?\}\s*```` part: the first closing position at or after `from`. */
  function FirstClose(s: string, from: nat): (r: Option<nat>)
    requires from <= |s|
    ensures r.Some? ==> from <= r.value < |s| && ClosesAt(s, r.value)
    ensures r.Some? ==> forall e :: from <= e < r.value ==> !ClosesAt(s, e)
    ensures r.None? ==> forall e :: from <= e < |s| ==> !ClosesAt(s, e)
    decreases |s| - from
  {
    if from == |s| then None
    else if ClosesAt(s, from) then Some(from)
    else FirstClose(s, from + 1)
  }

  /**
   * The group of the pattern ```` ```(?:json)?\s*(\{.*?\})\s*``` ```` matched from index `i`.
   * The optional `json` tag is tried first; without it the pattern would need `{` right at
   * the `j`, so dropping it never rescues a failed attempt.
   */
  function FenceAt(s: string, i: nat): (r: Option<string>)
    requires i <= |s|
    ensures r.Some? ==> FenceMarkAt(s, i)
    ensures r.Some? ==> 2 <= |r.value| && r.value[0] == '{' && r.value[|r.value| - 1] == '}'
  {
    if !FenceMarkAt(s, i) then None
    else
      var p := if JsonTagAt(s, i + 3) then i + 7 else i + 3;
      var q := SkipSpace(s, p);
      if q < |s| && s[q] == '{' then
        match FirstClose(s, q + 1)
        case Some(e) => Some(s[q..e + 1])
        case None => None
      else None
  }

  /** `re.search` with that pattern: the leftmost index from which it matches. */
  function FindFenceFrom(s: string, i: nat): (r: Option<string>)
    requires i <= |s|
    ensures r.Some? ==> 2 <= |r.value| && r.value[0] == '{' && r.value[|r.value| - 1] == '}'
    decreases |s| - i
  {
    if FenceAt(s, i).Some? then FenceAt(s, i)
    else if i == |s| then None
    else FindFenceFrom(s, i + 1)
  }

  /** The search returns the group matched at some index, and finds nothing only when no index matches. */
  lemma {:induction false} FindFenceFromSpec(s: string, i: nat)
    requires i <= |s|
    ensures var r := FindFenceFrom(s, i);
      (r.Some? ==> exists k :: i <= k <= |s| && FenceAt(s, k) == r) &&
      (r.None? <==> forall k :: i <= k <= |s| ==> FenceAt(s, k).None?)
    decreases |s| - i
  {
    if FenceAt(s, i).None? && i < |s| {
      FindFenceFromSpec(s, i + 1);
    }
  }

  function FindFence(s: string): (r: Option<string>)
    ensures r.Some? ==> 2 <= |r.value| && r.value[0] == '{' && r.value[|r.value| - 1] == '}'
  {
    FindFenceFrom(s, 0)
  }

  /** A reply without a backtick holds no fence, so the whole reply is decoded. */
  lemma NoBacktickNoFence(s: string)
    requires '`' !in s
    ensures FindFence(s) == None
  {
    FindFenceFromSpec(s, 0);
  }

  /** The fenced object of a reply ```` ```json\n{...}\n``` ```` is extracted exactly. */
  lemma FenceRoundTrip(obj: string)
    requires 2 <= |obj| && obj[0] == '{' && obj[|obj| - 1] == '}' && '`' !in obj
    ensures FindFence("```json\n" + obj + "\n```") == Some(obj)
  {
    var s := "```json\n" + obj + "\n```";
    var last := 8 + |obj| - 1;
    assert s[8..8 + |obj|] == obj;
    assert FenceMarkAt(s, 0) && JsonTagAt(s, 3);
    assert SkipSpace(s, 7) == 8;
    assert s[last + 1] == '\n';
    assert SkipSpace(s, last + 2) == last + 2;
    assert SkipSpace(s, last + 1) == last + 2;
    assert FenceMarkAt(s, last + 2);
    assert ClosesAt(s, last);
    forall e | 9 <= e < last
      ensures !ClosesAt(s, e)
    {
      if s[e] == '}' {
        var j := SkipSpace(s, e + 1);
        assert j <= last by {
          if j > last {
            assert false;
          }
        }
        assert s[j] == obj[j - 8];
      }
    }
    assert FenceAt(s, 0) == Some(s[8..last + 1]);
  }

  /** What `json.loads` does with a text: a value, or a decode error with its message. */
  datatype ParseOutcome = Parsed(value: Value) | DecodeError(message: string)

  /** The six `setdefault` calls: each field every evaluation result carries, with its default. */
  const DefaultFields: seq<(string, Value)> := [
    ("marks_awarded", Num(0)),
    ("percentage", Num(0)),
    ("strengths", Arr([])),
    ("missing_points", Arr([])),
    ("feedback", Str("No feedback provided")),
    ("grade", Str("N/A"))]

  /** The default fields have six different keys. */
  lemma DefaultKeysDistinct()
    ensures forall i, j :: 0 <= i < j < |DefaultFields| ==> DefaultFields[i].0 != DefaultFields[j].0
  {
  }

  /** `m` carries the six result fields. */
  predicate HasResultFields(m: Dict) {
    forall j :: 0 <= j < |DefaultFields| ==> DefaultFields[j].0 in m
  }

  /** `d` after the first `n` of the `setdefault` calls. */
  function FillDefaults(d: Dict, n: nat): Dict
    requires n <= |DefaultFields|
  {
    if n == 0 then d
    else SetDefault(FillDefaults(d, n - 1), DefaultFields[n - 1].0, DefaultFields[n - 1].1)
  }

  /** After the first `n` calls, `d`'s own fields are unchanged and the first `n` default keys are present. */
  lemma {:induction false} FillDefaultsKeeps(d: Dict, n: nat)
    requires n <= |DefaultFields|
    ensures var r := FillDefaults(d, n);
      (forall k :: k in d ==> k in r && r[k] == d[k]) &&
      (forall j :: 0 <= j < n ==> DefaultFields[j].0 in r)
  {
    if n > 0 {
      FillDefaultsKeeps(d, n - 1);
    }
  }

  /** The calls add no key other than the default keys. */
  lemma {:induction false} FillDefaultsAddsOnlyDefaults(d: Dict, n: nat)
    requires n <= |DefaultFields|
    ensures forall k :: k in FillDefaults(d, n) ==> k in d || exists j :: 0 <= j < n && DefaultFields[j].0 == k
  {
    if n > 0 {
      FillDefaultsAddsOnlyDefaults(d, n - 1);
      var prev := FillDefaults(d, n - 1);
      forall k | k in FillDefaults(d, n)
        ensures k in d || exists j :: 0 <= j < n && DefaultFields[j].0 == k
      {
        if k !in prev {
          assert DefaultFields[n - 1].0 == k;
        } else if k !in d {
          var j :| 0 <= j < n - 1 && DefaultFields[j].0 == k;
          assert 0 <= j < n;
        }
      }
    }
  }

  /** One more `setdefault` call with the next default extends the fill by one. */
  lemma FillDefaultsStep(d: Dict, n: nat, k: string, v: Value)
    requires n < |DefaultFields| && DefaultFields[n] == (k, v)
    ensures SetDefault(FillDefaults(d, n), k, v) == FillDefaults(d, n + 1)
  {
  }

  /** A field the parsed object lacks gets its default value. */
  lemma {:induction false} FillDefaultsValue(d: Dict, n: nat, j: nat)
    requires j < n <= |DefaultFields| && DefaultFields[j].0 !in d
    ensures DefaultFields[j].0 in FillDefaults(d, n) && FillDefaults(d, n)[DefaultFields[j].0] == DefaultFields[j].1
  {
    if j < n - 1 {
      FillDefaultsValue(d, n - 1, j);
    } else {
      FillDefaultsAddsOnlyDefaults(d, n - 1);
      DefaultKeysDistinct();
      assert DefaultFields[j].0 !in FillDefaults(d, n - 1);
    }
  }

  /** The result returned when the reply is not valid JSON. */
  function DecodeFallback(message: string, text: string): Dict {
    map[
      "marks_awarded" := Num(0),
      "percentage" := Num(0),
      "strengths" := Arr([Str("Unable to parse evaluation results")]),
      "missing_points" := Arr([Str("Error in evaluation process")]),
      "feedback" := Str("Evaluation error: " + message + ". Raw response: " + Prefix(text, 200)),
      "grade" := Str("N/A")]
  }

  /** The result returned on any other exception. */
  function ErrorFallback(message: string): Dict {
    map[
      "marks_awarded" := Num(0),
      "percentage" := Num(0),
      "strengths" := Arr([]),
      "missing_points" := Arr([]),
      "feedback" := Str("Error during evaluation: " + message),
      "grade" := Str("N/A")]
  }

  /** The text handed to the decoder: the fenced object if there is one, else the stripped reply. */
  function DecodedText(reply: string): string {
    var t := Strip(reply);
    match FindFence(t)
    case Some(g) => g
    case None => t
  }

  /** The result once the decoder has run on `text` with outcome `parsed`. */
  function Outcome(text: string, parsed: ParseOutcome): (r: Dict)
    ensures HasResultFields(r)
  {
    match parsed
    case DecodeError(message) => DecodeFallback(message, text)
    case Parsed(Obj(d)) => FillDefaultsKeeps(d, |DefaultFields|); FillDefaults(d, |DefaultFields|)
    case Parsed(v) => ErrorFallback("'" + TypeName(v) + "' object has no attribute 'setdefault'")
  }

  /** The evaluation result for a model reply (or the exception the model call raised). */
  function Evaluation(reply: Result<string, string>, parse: string -> ParseOutcome): (r: Dict)
    ensures HasResultFields(r)
  {
    match reply
    case Err(message) => ErrorFallback(message)
    case Ok(raw) => Outcome(DecodedText(raw), parse(DecodedText(raw)))
  }

  /**
   * `evaluate_answer` after the prompt is sent: strip, take the fenced object if any,
   * decode, then fill in defaults in place; decode errors and other exceptions give the
   * two fallback results.
   */
  method EvaluateAnswer(reply: Result<string, string>, parse: string -> ParseOutcome) returns (evaluation: Dict)
    ensures evaluation == Evaluation(reply, parse)
  {
    if reply.Err? {
      return ErrorFallback(reply.error);
    }
    var resultText := Strip(reply.value);
    var jsonMatch := FindFence(resultText);
    if jsonMatch.Some? {
      resultText := jsonMatch.value;
    }
    assert resultText == DecodedText(reply.value);
    var parsed := parse(resultText);
    evaluation := FromParsed(resultText, parsed);
  }

  /** The decoder's outcome turned into the result: a fallback, or the object with defaults filled in. */
  method FromParsed(resultText: string, parsed: ParseOutcome) returns (evaluation: Dict)
    ensures evaluation == Outcome(resultText, parsed)
  {
    if parsed.DecodeError? {
      return DecodeFallback(parsed.message, resultText);
    }
    if !parsed.value.Obj? {
      return ErrorFallback("'" + TypeName(parsed.value) + "' object has no attribute 'setdefault'");
    }
    evaluation := SetDefaults(parsed.value.fields);
  }

  /** The six `setdefault` calls on the decoded object, in the source's order. */
  method SetDefaults(d: Dict) returns (evaluation: Dict)
    ensures evaluation == FillDefaults(d, |DefaultFields|)
  {
    evaluation := d;
    evaluation := SetDefault(evaluation, "marks_awarded", Num(0));
    FillDefaultsStep(d, 0, "marks_awarded", Num(0));
    evaluation := SetDefault(evaluation, "percentage", Num(0));
    FillDefaultsStep(d, 1, "percentage", Num(0));
    evaluation := SetDefault(evaluation, "strengths", Arr([]));
    FillDefaultsStep(d, 2, "strengths", Arr([]));
    evaluation := SetDefault(evaluation, "missing_points", Arr([]));
    FillDefaultsStep(d, 3, "missing_points", Arr([]));
    evaluation := SetDefault(evaluation, "feedback", Str("No feedback provided"));
    FillDefaultsStep(d, 4, "feedback", Str("No feedback provided"));
    evaluation := SetDefault(evaluation, "grade", Str("N/A"));
    FillDefaultsStep(d, 5, "grade", Str("N/A"));
  }

  /** A decoded object keeps every field it had and gains the missing ones at their defaults. */
  lemma ParsedObjectKept(text: string, d: Dict)
    ensures var r := Outcome(text, Parsed(Obj(d)));
      HasResultFields(r) &&
      (forall k :: k in d ==> k in r && r[k] == d[k]) &&
      (forall j :: 0 <= j < |DefaultFields| && DefaultFields[j].0 !in d ==> r[DefaultFields[j].0] == DefaultFields[j].1) &&
      (forall k :: k in r ==> k in d || exists j :: 0 <= j < |DefaultFields| && DefaultFields[j].0 == k)
  {
    FillDefaultsKeeps(d, |DefaultFields|);
    FillDefaultsAddsOnlyDefaults(d, |DefaultFields|);
    forall j | 0 <= j < |DefaultFields| && DefaultFields[j].0 !in d
      ensures FillDefaults(d, |DefaultFields|)[DefaultFields[j].0] == DefaultFields[j].1
    {
      FillDefaultsValue(d, |DefaultFields|, j);
    }
  }

  /** A decode error scores zero and quotes at most 200 characters of the decoded text. */
  lemma DecodeErrorFallback(text: string, message: string)
    ensures var r := Outcome(text, DecodeError(message));
      r["marks_awarded"] == Num(0) && r["percentage"] == Num(0) && r["grade"] == Str("N/A") &&
      r["strengths"] == Arr([Str("Unable to parse evaluation results")]) &&
      r["missing_points"] == Arr([Str("Error in evaluation process")]) &&
      exists quoted :: r["feedback"] == Str("Evaluation error: " + message + ". Raw response: " + quoted) &&
        |quoted| <= 200 && IsPrefix(quoted, text) && (|text| <= 200 ==> quoted == text)
  {
    var quoted := Prefix(text, 200);
    assert Outcome(text, DecodeError(message))["feedback"] == Str("Evaluation error: " + message + ". Raw response: " + quoted);
  }

  /** A decoded value that is not an object scores zero with empty lists. */
  lemma NotAnObjectFallback(text: string, v: Value)
    requires !v.Obj?
    ensures var r := Outcome(text, Parsed(v));
      r["marks_awarded"] == Num(0) && r["percentage"] == Num(0) && r["grade"] == Str("N/A") &&
      r["strengths"] == Arr([]) && r["missing_points"] == Arr([]) &&
      r["feedback"].Str? && IsPrefix("Error during evaluation: ", r["feedback"].s)
  {
  }

  /** A failed model call scores zero with empty lists and reports the exception's message. */
  lemma ModelCallFailure(message: string, parse: string -> ParseOutcome)
    ensures var r := Evaluation(Err(message), parse);
      r["marks_awarded"] == Num(0) && r["percentage"] == Num(0) && r["grade"] == Str("N/A") &&
      r["strengths"] == Arr([]) && r["missing_points"] == Arr([]) &&
      r["feedback"] == Str("Error during evaluation: " + message)
  {
  }

  /** A reply with no backtick is decoded whole after stripping. */
  lemma UnfencedReplyDecodedWhole(raw: string)
    requires '`' !in raw
    ensures DecodedText(raw) == Strip(raw)
  {
    NoBacktickNoFence(Strip(raw));
  }

  /** A reply ```` ```json\n{...}\n``` ```` has only the object decoded. */
  lemma FencedReplyDecodesObject(obj: string)
    requires 2 <= |obj| && obj[0] == '{' && obj[|obj| - 1] == '}' && '`' !in obj
    ensures DecodedText("```json\n" + obj + "\n```") == obj
  {
    var s := "```json\n" + obj + "\n```";
    StripUnchanged(s);
    FenceRoundTrip(obj);
  }
}
