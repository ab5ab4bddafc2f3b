/**
 * The few JavaScript semantics the frontend helpers rely on. Numbers are
 * IEEE doubles (`Float`); `parseFloat` and `Number` are parameters, since
 * their digit-by-digit behaviour is not what the helpers decide on.
 */
module JsModel {
  import opened Numeric

  /** `parseFloat(s)`: the numeric prefix of `s`, or NaN when there is none. */
  type ParseFloatJs = string -> Float

  /** `isNaN(parseFloat(s))` is false: `s` starts with a number. */
  predicate ParsesAsNumber(parse: ParseFloatJs, s: string) {
    !parse(s).NaN?
  }

  /** A string is truthy when it is non-empty. */
  predicate TruthyStr(s: string) {
    s != ""
  }

  /** A number is truthy unless it is zero or NaN. */
  predicate TruthyNum(x: Float) {
    match x
    case Finite(v) => v != 0.0
    case NaN => false
    case _ => true
  }

  /** `Number.isFinite(x)`. */
  predicate IsFiniteNum(x: Float) {
    x.Finite?
  }

  /** A JavaScript value, as far as the helpers look into it. */
  datatype JsVal =
    | Undefined
    | Null
    | Bool(b: bool)
    | Num(x: Float)
    | Str(s: string)
    | Arr(items: seq<JsVal>)
    | Obj(fields: map<string, JsVal>)

  /** JavaScript truthiness: `undefined`, `null`, `false`, `0`, `NaN` and `""` are falsy; arrays and objects are truthy. */
  predicate Truthy(v: JsVal) {
    match v
    case Undefined => false
    case Null => false
    case Bool(b) => b
    case Num(x) => TruthyNum(x)
    case Str(s) => TruthyStr(s)
    case _ => true
  }

  /** `a || b`. */
  function Or(a: JsVal, b: JsVal): (r: JsVal)
    ensures Truthy(a) ==> r == a
    ensures !Truthy(a) ==> r == b
  {
    if Truthy(a) then a else b
  }

  /** `v?.key`: the property when `v` is an object holding it, else `undefined`. */
  function Get(v: JsVal, key: string): (r: JsVal)
    ensures v.Obj? && key in v.fields ==> r == v.fields[key]
    ensures !(v.Obj? && key in v.fields) ==> r == Undefined
  {
    if v.Obj? && key in v.fields then v.fields[key] else Undefined
  }

  /** `String(v)` for values other than strings (arrays join their items, objects give `[object Object]`). */
  type ShowFn = JsVal -> string

  /** `String(v)`: a string is itself. */
  function ToJsString(show: ShowFn, v: JsVal): (r: string)
    ensures v.Str? ==> r == v.s
  {
    if v.Str? then v.s else show(v)
  }

  /** The abstract operation ToNumber, used by `<`, `>` and `Math.abs` on non-numbers. */
  type ToNumberFn = JsVal -> Float

  /** ToNumber: a number is itself, `null` is 0, `undefined` is NaN, booleans are 0 or 1. */
  function ToNumber(toNumber: ToNumberFn, v: JsVal): (r: Float)
    ensures v.Num? ==> r == v.x
    ensures v.Null? ==> r == Finite(0.0)
    ensures v.Undefined? ==> r == NaN
  {
    match v
    case Num(x) => x
    case Null => Finite(0.0)
    case Undefined => NaN
    case Bool(b) => Finite(if b then 1.0 else 0.0)
    case _ => toNumber(v)
  }
}
