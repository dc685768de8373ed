/** Values produced by `JSON.parse`, and the few JavaScript operations the
    merge script and the front-end apply to them: truthiness, `String(v)`,
    property access and `Object.values`. */
module Json {
  import opened Options
  import opened JsString
  import JsNumber

  /** A parsed JSON value. A number is held as the text `String(n)` gives for it,
      so its value is `JsNumber.ParseFloat(text)`. An object is the list of its own
      properties in JavaScript's enumeration order, each key once (as `JSON.parse`
      builds it). */
  datatype Json =
    | Null
    | Bool(b: bool)
    | Num(text: string)
    | Str(s: string)
    | Arr(elems: seq<Json>)
    | Obj(fields: seq<(string, Json)>)

  /** `!!v`: null, false, zero and the empty string are falsy; arrays and objects,
      even empty ones, are truthy. */
  predicate Truthy(v: Json)
    ensures v.Arr? || v.Obj? ==> Truthy(v)
    ensures Truthy(v) && !v.Arr? && !v.Obj? ==> ToText(v) != []
  {
    match v
    case Null => false
    case Bool(b) => b
    case Num(t) => JsNumber.TruthyNumber(JsNumber.ParseFloat(t))
    case Str(s) => s != []
    case Arr(_) => true
    case Obj(_) => true
  }

  /** `a || b` on property reads (`None` is `undefined`): `a` when it is truthy, else `b`. */
  function Or(a: Option<Json>, b: Option<Json>): (r: Option<Json>)
    ensures r == a || r == b
    ensures TruthyRead(r) <==> TruthyRead(a) || TruthyRead(b)
    ensures TruthyRead(a) ==> r == a
    ensures !TruthyRead(a) ==> r == b
  {
    if a.Some? && Truthy(a.value) then a else b
  }

  /** Truthiness of a property read, where `undefined` is falsy. */
  predicate TruthyRead(v: Option<Json>) {
    v.Some? && Truthy(v.value)
  }

  /** `String(v)`; an array joins its elements with "," (null elements print as ""). */
  function ToText(v: Json): (r: string)
    ensures v.Str? ==> r == v.s
    ensures v.Null? || v.Bool? || v.Obj? ==> r != []
    decreases v, 1
  {
    match v
    case Null => "null"
    case Bool(b) => if b then "true" else "false"
    case Num(t) => t
    case Str(s) => s
    case Arr(es) => JoinTexts(es, v)
    case Obj(_) => "[object Object]"
  }

  /** `Array.prototype.join(",")` on the elements `es` of the array `whole`. */
  function JoinTexts(es: seq<Json>, ghost whole: Json): string
    requires forall e :: e in es ==> e < whole
    decreases whole, 0, |es|
  {
    if es == [] then ""
    else
      assert es[0] in es;
      assert forall e :: e in es[1..] ==> e in es;
      var first := if es[0].Null? then "" else ToText(es[0]);
      if |es| == 1 then first else first + "," + JoinTexts(es[1..], whole)
  }

  /** The value of the first property named `key`, or `None` (`undefined`). */
  function Field(fields: seq<(string, Json)>, key: string): (r: Option<Json>)
    ensures r.None? <==> forall i :: 0 <= i < |fields| ==> fields[i].0 != key
    ensures r.Some? ==> (key, r.value) in fields
  {
    if fields == [] then None
    else if fields[0].0 == key then Some(fields[0].1)
    else Field(fields[1..], key)
  }

  /** `v[key]` on a value that is not null: only objects have the keys read here;
      arrays, strings, numbers and booleans give `undefined`. */
  function Get(v: Json, key: string): (r: Option<Json>)
    requires !v.Null?
    ensures !v.Obj? ==> r.None?
  {
    if v.Obj? then Field(v.fields, key) else None
  }

  /** `Object.values(v)`: `None` when it throws (on null); the property values of an
      object, the elements of an array, the one-character strings of a string, and
      nothing for a number or a boolean. */
  function ObjectValues(v: Json): (r: Option<seq<Json>>)
    ensures r.None? <==> v.Null?
    ensures v.Obj? ==> r == Some(seq(|v.fields|, i requires 0 <= i < |v.fields| => v.fields[i].1))
    ensures v.Str? ==> r.Some? && |r.value| == |v.s| && forall i :: 0 <= i < |v.s| ==> r.value[i] == Str([v.s[i]])
    ensures v.Arr? ==> r == Some(v.elems)
    ensures v.Bool? || v.Num? ==> r == Some([])
  {
    match v
    case Null => None
    case Bool(_) => Some([])
    case Num(_) => Some([])
    case Str(s) => Some(seq(|s|, i requires 0 <= i < |s| => Str([s[i]])))
    case Arr(es) => Some(es)
    case Obj(fs) => Some(seq(|fs|, i requires 0 <= i < |fs| => fs[i].1))
  }
}
