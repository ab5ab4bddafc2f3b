/**
 * The Python values the backend passes around (after the spreadsheet has
 * been read into cells) and the exceptions its unguarded paths raise.
 */
module PyModel {
  import opened Wrappers
  import opened Numeric
  import opened Text

  /**
   * A Python value as it appears in a parsed workbook or a JSON-bound
   * response. `PyTimestamp` and `PyNaT` are pandas' date cell and missing
   * date; a dict is kept as its ordered list of entries.
   */
  datatype PyValue =
    | PyNone
    | PyBool(b: bool)
    | PyInt(i: int)
    | PyFloat(f: Float)
    | PyStr(s: string)
    | PyTimestamp(t: int)
    | PyNaT
    | PyList(items: seq<PyValue>)
    | PyDict(entries: seq<(string, PyValue)>)

  /** A statement table: row label to the cells under the year columns. */
  type Table = map<string, seq<PyValue>>

  /** The exceptions raised by the modelled code. */
  datatype PyError =
    | ZeroDivisionError
    | IndexError
    | TypeError
    | ValueError
    | OverflowError
    | UnboundLocalError(name: string)
    | RuntimeError(message: string)
    | ValidationError(field: string)

  /**
   * `float(s)` for a string: the parsed value, or `None` when Python raises
   * `ValueError`. Strings that denote an infinity or NaN without being
   * spelled "nan" are outside the model.
   */
  type ParseFloatFn = string -> Option<real>

  /** `str(v)` for a value that is not already a string. */
  type ShowFn = PyValue -> string

  /** `str(v)`: a string is its own text; every other value goes through `show`. */
  function Str(show: ShowFn, v: PyValue): (r: string)
    ensures v.PyStr? ==> r == v.s
  {
    if v.PyStr? then v.s else show(v)
  }

  /** Python truthiness of a scalar or container. */
  predicate Truthy(v: PyValue) {
    match v
    case PyNone => false
    case PyBool(b) => b
    case PyInt(i) => i != 0
    case PyFloat(f) => f != Finite(0.0)
    case PyStr(s) => |s| > 0
    case PyTimestamp(_) => true
    case PyNaT => true
    case PyList(items) => |items| > 0
    case PyDict(entries) => |entries| > 0
  }

  /** `pd.isna` / `pd.notnull` negated, for a scalar. */
  predicate IsNa(v: PyValue) {
    v.PyNone? || v == PyFloat(NaN) || v.PyNaT?
  }

  /**
   * `float(v)`: numbers convert, strings are parsed, everything else raises
   * `TypeError`. A NaN float stays NaN; the result is an extended float.
   */
  function ToFloat(parse: ParseFloatFn, v: PyValue): (r: Result<Float, PyError>)
    ensures v.PyInt? ==> r == Success(Finite(v.i as real))
    ensures v.PyFloat? ==> r == Success(v.f)
    ensures v.PyStr? ==> (r.Success? <==> parse(v.s).Some?)
    ensures v.PyNone? || v.PyList? || v.PyDict? ==> r == Failure(TypeError)
  {
    match v
    case PyBool(b) => Success(Finite(if b then 1.0 else 0.0))
    case PyInt(i) => Success(Finite(i as real))
    case PyFloat(f) => Success(f)
    case PyStr(s) =>
      (match parse(s)
       case Some(x) => Success(Finite(x))
       case None => Failure(ValueError))
    case _ => Failure(TypeError)
  }

  /**
   * `float(s)` for a string, with the spellings Python gives non-finite
   * values: an optional sign followed by "nan", "inf" or "infinity" in any
   * case, around optional whitespace. Every other string goes to `parse`.
   */
  function FloatOfString(parse: ParseFloatFn, s: string): (r: Option<Float>)
    ensures Lower(Trim(s)) == "nan" ==> r == Some(NaN)
    ensures Lower(Trim(s)) == "inf" || Lower(Trim(s)) == "infinity" ==> r == Some(PosInf)
    ensures Lower(Trim(s)) == "-inf" || Lower(Trim(s)) == "-infinity" ==> r == Some(NegInf)
    ensures r.Some? && r.value.Finite? ==> parse(s) == Some(r.value.v)
    ensures r.None? ==> parse(s).None?
  {
    var t := Lower(Trim(s));
    var body := if |t| > 0 && (t[0] == '+' || t[0] == '-') then t[1..] else t;
    if body == "nan" then Some(NaN)
    else if body == "inf" || body == "infinity" then
      Some(if |t| > 0 && t[0] == '-' then NegInf else PosInf)
    else match parse(s)
      case Some(x) => Some(Finite(x))
      case None => None
  }

  /**
   * `float(v)` with every string spelling Python accepts, the non-finite
   * ones included; non-strings convert as in `ToFloat`.
   */
  function FloatOf(parse: ParseFloatFn, v: PyValue): (r: Result<Float, PyError>)
    ensures !v.PyStr? ==> r == ToFloat(parse, v)
    ensures v.PyStr? ==> (r.Success? <==> FloatOfString(parse, v.s).Some?)
    ensures v.PyStr? && r.Failure? ==> r == Failure(ValueError)
  {
    if v.PyStr? then
      match FloatOfString(parse, v.s)
      case Some(f) => Success(f)
      case None => Failure(ValueError)
    else ToFloat(parse, v)
  }
}
