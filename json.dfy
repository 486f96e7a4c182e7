/**
 * The values exchanged between the browser, the Flask routes and MongoDB: JSON values plus
 * the two BSON types the back end stores (ObjectId, datetime). Truthiness follows each
 * language: Python treats empty lists and dicts as false, JavaScript treats them as true.
 */
module Json {
  import opened Wrappers
  import opened Text

  datatype Value =
    | Null
    | Bool(b: bool)
    | Num(n: int)
    | Str(s: string)
    | Arr(items: seq<Value>)
    | Obj(fields: map<string, Value>)
    | Oid(hex: string)     // a BSON ObjectId, by its hexadecimal form
    | Date(t: int)         // a BSON datetime, in milliseconds since the epoch

  type Dict = map<string, Value>

  /** Python's `bool(v)`. */
  predicate PyTruthy(v: Value) {
    match v
    case Null => false
    case Bool(b) => b
    case Num(n) => n != 0
    case Str(s) => s != []
    case Arr(items) => items != []
    case Obj(fields) => fields != map[]
    case Oid(_) => true
    case Date(_) => true
  }

  /** JavaScript's `!!v`: every array and object is truthy. */
  predicate JsTruthy(v: Value) {
    match v
    case Null => false
    case Bool(b) => b
    case Num(n) => n != 0
    case Str(s) => s != []
    case _ => true
  }

  /** The two languages disagree only on empty containers. */
  lemma TruthinessDiffers(v: Value)
    ensures PyTruthy(v) != JsTruthy(v) <==> v == Arr([]) || v == Obj(map[])
  {
  }

  /** Python's `d.get(k, default)`; also JavaScript's `o.k ?? default` for a missing key. */
  function Get(d: Dict, k: string, default: Value): (r: Value)
    ensures k in d ==> r == d[k]
    ensures k !in d ==> r == default
  {
    if k in d then d[k] else default
  }

  /** Python's `d.setdefault(k, v)` for its effect on `d`. */
  function SetDefault(d: Dict, k: string, v: Value): (r: Dict)
    ensures k in r
    ensures k in d ==> r == d
    ensures k !in d ==> r[k] == v
    ensures r.Keys == d.Keys + {k}
    ensures forall j :: j in d ==> r[j] == d[j]
  {
    if k in d then d else d[k := v]
  }

  predicate IsHexDigit(c: char) {
    '0' <= c <= '9' || 'a' <= c <= 'f' || 'A' <= c <= 'F'
  }

  /** The canonical text of an ObjectId: 24 lower-case hexadecimal digits. */
  predicate IsOidText(s: string) {
    |s| == 24 && forall i :: 0 <= i < |s| ==> IsHexDigit(s[i]) && !('A' <= s[i] <= 'Z')
  }

  /** `ObjectId(s)`: 24 hexadecimal digits in either case; anything else is rejected. */
  function ParseOid(s: string): (r: Option<Value>)
    ensures r.Some? ==> r.value.Oid? && IsOidText(r.value.hex)
    ensures r.Some? <==> |s| == 24 && forall i :: 0 <= i < |s| ==> IsHexDigit(s[i])
  {
    if |s| == 24 && forall i :: 0 <= i < |s| ==> IsHexDigit(s[i]) then Some(Oid(Lower(s))) else None
  }

  /** `ObjectId(str(oid)) == oid`. */
  lemma ParseOidText(h: string)
    requires IsOidText(h)
    ensures ParseOid(h) == Some(Oid(h))
  {
    assert Lower(h) == h;
  }

  /** `str(v)` for the values an `_id` field holds; containers have no textual form here. */
  function PyStr(v: Value): string {
    match v
    case Null => "None"
    case Bool(b) => if b then "True" else "False"
    case Num(n) => IntToString(n)
    case Str(s) => s
    case Oid(h) => h
    case Date(t) => IntToString(t)
    case Arr(_) => "[...]"
    case Obj(_) => "{...}"
  }

  /** Text values are their own string form, and so are ObjectIds. */
  lemma PyStrOfText(v: Value)
    requires v.Str? || v.Oid?
    ensures PyStr(v) == if v.Str? then v.s else v.hex
  {
  }

  /** Python's name for the type of a value. */
  function TypeName(v: Value): string {
    match v
    case Null => "NoneType"
    case Bool(_) => "bool"
    case Num(_) => "int"
    case Str(_) => "str"
    case Arr(_) => "list"
    case Obj(_) => "dict"
    case Oid(_) => "ObjectId"
    case Date(_) => "datetime"
  }
}
