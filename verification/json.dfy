/** The values `JSON.parse` can produce, and the three JavaScript operations
    the stream decoder applies to them: truthiness, property access
    (`a.b`, `a?.b`) and conversion to a string (`'' + v`, `new Error(v)`).
    JSON numbers are modelled as integers. */
module Json {
  import opened Common
  import Text

  datatype Json =
    | JNull
    | JBool(b: bool)
    | JNum(n: int)
    | JStr(s: string)
    | JArr(elems: seq<Json>)
    | JObj(fields: map<string, Json>)

  /** JavaScript truthiness of a possibly-undefined value (None is
      `undefined`): null, false, 0 and the empty string are falsy; every
      array and object is truthy, even an empty one. */
  predicate Truthy(v: Option<Json>) {
    match v
    case None => false
    case Some(JNull) => false
    case Some(JBool(b)) => b
    case Some(JNum(n)) => n != 0
    case Some(JStr(s)) => s != ""
    case Some(JArr(_)) => true
    case Some(JObj(_)) => true
  }

  /** `v.key` on a value that is not null: only objects carry the keys the
      decoder reads; on any other value the property is undefined. */
  function Field(v: Json, key: string): (r: Option<Json>)
    ensures r.Some? <==> v.JObj? && key in v.fields
    ensures r.Some? ==> r.value == v.fields[key]
  {
    if v.JObj? && key in v.fields then Some(v.fields[key]) else None
  }

  /** `v?.key`: undefined when `v` is null or undefined. */
  function OptField(v: Option<Json>, key: string): (r: Option<Json>)
    ensures v.None? || v == Some(JNull) ==> r.None?
    ensures v.Some? && v.value.JObj? && key in v.value.fields ==> r == Some(v.value.fields[key])
  {
    match v
    case None => None
    case Some(x) => Field(x, key)
  }

  /** `a || b`: the first operand when it is truthy, the second otherwise. */
  function Or(a: Option<Json>, b: Option<Json>): (r: Option<Json>)
    ensures Truthy(a) ==> r == a
    ensures !Truthy(a) ==> r == b
  {
    if Truthy(a) then a else b
  }

  /** Strict equality with a string literal (`v === 'lit'`). */
  predicate IsString(v: Option<Json>, lit: string) {
    v == Some(JStr(lit))
  }

  /** `a === b` between values parsed from separate messages: primitives
      compare by value, while two arrays or objects are always distinct
      references. */
  predicate StrictEquals(a: Json, b: Json) {
    a == b && !a.JArr? && !a.JObj?
  }

  /** `String(v)`: the text JavaScript's string conversion produces when it
      does not throw (see `PrintThrows`). Arrays join their elements with
      ',' (null elements become empty); plain objects print as
      "[object Object]". */
  function ToJsString(v: Json): (r: string)
    ensures v.JStr? ==> r == v.s
    ensures v.JNum? ==> r == Text.IntToString(v.n)
    ensures v.JObj? ==> r == "[object Object]"
    decreases v, 1, 0
  {
    match v
    case JNull => "null"
    case JBool(b) => if b then "true" else "false"
    case JNum(n) => Text.IntToString(n)
    case JStr(s) => s
    case JObj(_) => "[object Object]"
    case JArr(elems) => JoinElements(v, 0)
  }

  /** Whether `String(v)` and `'' + v` throw a TypeError. A parsed object
      with its own `toString` key shadows the inherited method with a value
      that is not a function, and `valueOf` returns the object itself, so
      no primitive results. An array throws when one of its elements does,
      because joining converts every element that is not null. */
  predicate PrintThrows(v: Json)
    decreases v
  {
    match v
    case JObj(f) => "toString" in f
    case JArr(elems) => exists i :: 0 <= i < |elems| && PrintThrows(elems[i])
    case _ => false
  }

  /** Array.prototype.join(',') of the elements of `arr` from index `i` on. */
  function JoinElements(arr: Json, i: nat): string
    requires arr.JArr? && i <= |arr.elems|
    decreases arr, 0, |arr.elems| - i
  {
    if i == |arr.elems| then ""
    else
      var e := arr.elems[i];
      var text := if e == JNull then "" else ToJsString(e);
      if i + 1 == |arr.elems| then text else text + "," + JoinElements(arr, i + 1)
  }

  /** Every truthy value except an array prints as a non-empty string;
      arrays such as `[]` or `[null]` are truthy yet print as "". */
  lemma {:induction false} TruthyNonArrayPrintsSomething(v: Json)
    requires Truthy(Some(v)) && !v.JArr?
    ensures ToJsString(v) != ""
  {
    match v
    case JNum(n) =>
      if n < 0 {
        assert ToJsString(v)[0] == '-';
      }
    case _ =>
  }

  /** The two truthy arrays that print as nothing. */
  lemma EmptyArraysPrintEmpty()
    ensures Truthy(Some(JArr([]))) && ToJsString(JArr([])) == ""
    ensures Truthy(Some(JArr([JNull]))) && ToJsString(JArr([JNull])) == ""
  {
  }
}
