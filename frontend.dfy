/**
 * What the React pages share: the shape of a failed request as the handlers read it
 * (`err.response?.data?.error`, `err.message`), property access on a JSON response, and
 * removal of the entries with a given `_id` from a list held in component state.
 */
module Frontend {
  import opened Wrappers
  import opened Json
  import Seqs

  /** A rejected request: the server's `error` field when the response carried one, and the client-side message. */
  datatype Failure = Failure(serverError: Option<string>, message: string)

  /** `err.response?.data?.error || fallback`. */
  function ServerErrorOr(f: Failure, fallback: string): (r: string)
    ensures f.serverError.Some? && f.serverError.value != [] ==> r == f.serverError.value
    ensures (f.serverError.None? || f.serverError.value == []) ==> r == fallback
  {
    if f.serverError.Some? && f.serverError.value != [] then f.serverError.value else fallback
  }

  /** `err.response?.data?.error || err.message`. */
  function ErrorText(f: Failure): string {
    ServerErrorOr(f, f.message)
  }

  /** `v.k` on a response body; a missing property reads as `undefined`, written `Null` here. */
  function Member(v: Value, k: string): (r: Value)
    ensures v.Obj? && k in v.fields ==> r == v.fields[k]
    ensures !(v.Obj? && k in v.fields) ==> r == Null
  {
    if v.Obj? && k in v.fields then v.fields[k] else Null
  }

  /** `res.k || []` for a list property. */
  function ListMember(v: Value, k: string): (r: seq<Value>)
    ensures Member(v, k).Arr? ==> r == Member(v, k).items
    ensures !Member(v, k).Arr? ==> r == []
  {
    match Member(v, k)
    case Arr(items) => items
    case _ => []
  }

  /** The add-teacher form: `{ name, email, subject }`. */
  datatype TeacherForm = TeacherForm(name: string, email: string, subject: string)
  /** The add-student form: `{ name, email, rollNumber, class }`. */
  datatype StudentForm = StudentForm(name: string, email: string, rollNumber: string, className: string)

  const EmptyTeacherForm := TeacherForm("", "", "")
  const EmptyStudentForm := StudentForm("", "", "", "")

  /** `x._id`. */
  function IdOf(x: Value): Value {
    Member(x, "_id")
  }

  /** `x._id` as the text a `<select>` holds; the routes always send ids as strings. */
  function IdText(x: Value): string {
    match IdOf(x)
    case Str(s) => s
    case _ => ""
  }

  /** `xs.filter(x => x._id !== id)`. */
  function WithoutId(xs: seq<Value>, id: Value): seq<Value> {
    Seqs.Filter(xs, x => IdOf(x) != id)
  }

  /**
   * Removing by id drops exactly the entries carrying that id: what is left keeps its order,
   * holds every other entry, and is shorter by the number of entries dropped.
   */
  lemma WithoutIdExact(xs: seq<Value>, id: Value)
    ensures var r := WithoutId(xs, id);
      Seqs.IsSubsequence(r, xs) &&
      (forall x :: x in r <==> x in xs && IdOf(x) != id) &&
      |r| == |xs| - |Seqs.Filter(xs, x => IdOf(x) == id)|
  {
    Seqs.FilterIsSubsequence(xs, x => IdOf(x) != id);
    Seqs.FilterComplement(xs, x => IdOf(x) != id, x => IdOf(x) == id);
  }

  /** A list in which no entry carries the id is left as it is. */
  lemma WithoutAbsentId(xs: seq<Value>, id: Value)
    requires forall i :: 0 <= i < |xs| ==> IdOf(xs[i]) != id
    ensures WithoutId(xs, id) == xs
  {
    Seqs.FilterKeepsAll(xs, x => IdOf(x) != id);
  }
}
