/** JSON-shaped JavaScript values: request bodies, query parameters, store
    rows and response payloads, with the three conversions the code applies
    to them (`Boolean`, `Number`, `String`). */
module JsValues {
  import opened Text
  import opened JsNumbers

  datatype JsValue =
    | Undefined
    | Null
    | Bool(b: bool)
    | Num(n: JsNum)
    | Str(s: string)
    | Arr(items: seq<JsValue>)
    | Obj(fields: map<string, JsValue>)

  /** A plain object; a key that is absent reads as `undefined`. */
  type Object = map<string, JsValue>

  /** `o[k]`. */
  function Get(o: Object, k: string): JsValue {
    if k in o then o[k] else Undefined
  }

  /** `Boolean(v)`. */
  predicate Truthy(v: JsValue) {
    match v
    case Undefined => false
    case Null => false
    case Bool(b) => b
    case Num(n) => IsTruthyNumber(n)
    case Str(s) => |s| > 0
    case Arr(_) => true
    case Obj(_) => true
  }

  /** `v || fallback`. */
  function Or(v: JsValue, fallback: JsValue): JsValue {
    if Truthy(v) then v else fallback
  }

  /** `String(v)`: arrays print their elements joined by commas, with
      `null` and `undefined` elements printed as nothing. */
  function ToText(v: JsValue): string
  {
    match v
    case Undefined => "undefined"
    case Null => "null"
    case Bool(b) => if b then "true" else "false"
    case Num(n) => NumberText(n)
    case Str(s) => s
    case Arr(items) =>
      Join(seq(|items|, i requires 0 <= i < |items| =>
                 if items[i].Null? || items[i].Undefined? then "" else ToText(items[i])), ",")
    case Obj(_) => "[object Object]"
  }

  /** `Number(v)`: an array converts through its string form, an object is NaN. */
  function ToNumber(v: JsValue): JsNum
  {
    match v
    case Undefined => NaN
    case Null => FromInt(0)
    case Bool(b) => FromInt(if b then 1 else 0)
    case Num(n) => n
    case Str(s) => StringToNumber(s)
    case Arr(_) => StringToNumber(ToText(v))
    case Obj(_) => NaN
  }

  /** `Number(v)` as a value. */
  function NumberOf(v: JsValue): JsValue {
    Num(ToNumber(v))
  }

  /** `v ? Number(v) : null`, the coercion every numeric column goes through. */
  function NumberOrNull(v: JsValue): (r: JsValue)
    ensures r == Null <==> !Truthy(v)
    ensures r.Num? ==> r.n == ToNumber(v)
  {
    if Truthy(v) then Num(ToNumber(v)) else Null
  }

  /** An integer as a value. */
  function IntValueOf(i: int): JsValue {
    Num(FromInt(i))
  }

  /** A list of strings as an array value. */
  function Strs(xs: seq<string>): (r: seq<JsValue>)
    ensures |r| == |xs|
    ensures forall i :: 0 <= i < |xs| ==> r[i] == Str(xs[i])
  {
    if |xs| == 0 then [] else [Str(xs[0])] + Strs(xs[1..])
  }
}
