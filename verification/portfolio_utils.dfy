/**
 * The portfolio page's formatting helpers
 * (frontend/src/utils/utils-portfolio.tsx): each takes a value that
 * may be a string, a number, `null` or `undefined`, reads strings with
 * `parseFloat`, and falls back to a placeholder for missing or non-numeric
 * input. Locale formatting (`Intl.NumberFormat`, `toLocaleString`) and
 * `toFixed` are parameters.
 */
module PortfolioUtils {
  import opened Numeric
  import opened JsModel

  /** The helpers' argument type `string | number | null | undefined`. */
  datatype NumLike = NullV | UndefinedV | StrV(s: string) | NumV(x: Float)

  /** `!value`. */
  predicate Falsy(v: NumLike) {
    match v
    case NullV => true
    case UndefinedV => true
    case StrV(s) => !TruthyStr(s)
    case NumV(x) => !TruthyNum(x)
  }

  /** `value === null || value === undefined || value === ""`. */
  predicate Missing(v: NumLike) {
    v.NullV? || v.UndefinedV? || v == StrV("")
  }

  /** `typeof value === 'string' ? parseFloat(value) : value` for a present value. */
  function AsNumber(parse: ParseFloatJs, v: NumLike): (x: Float)
    requires v.StrV? || v.NumV?
    ensures v.NumV? ==> x == v.x
    ensures v.StrV? ==> x == parse(v.s)
  {
    if v.StrV? then parse(v.s) else v.x
  }

  /** The value as a number when it has one: present and not NaN. */
  predicate HasNumber(parse: ParseFloatJs, v: NumLike) {
    !Missing(v) && !AsNumber(parse, v).NaN?
  }

  /** `safeParseFloat`: the number, or the default when the value is missing or NaN. */
  function SafeParseFloat(parse: ParseFloatJs, v: NumLike, default: Float): (r: Float)
    ensures HasNumber(parse, v) ==> r == AsNumber(parse, v)
    ensures !HasNumber(parse, v) ==> r == default
  {
    if Missing(v) then default
    else
      var num := AsNumber(parse, v);
      if num.NaN? then default else num
  }

  /** With a non-NaN default the result is never NaN, and a number that is not NaN comes back unchanged. */
  lemma SafeParseFloatNeverNaN(parse: ParseFloatJs, v: NumLike, default: Float)
    requires !default.NaN?
    ensures !SafeParseFloat(parse, v, default).NaN?
    ensures v.NumV? && !v.x.NaN? ==> SafeParseFloat(parse, v, default) == v.x
  {
  }

  /** `num.toLocaleString('en-IN', { maximumFractionDigits: 2 })`. */
  type LocaleFn = Float -> string

  /** `formatNumber`: `"0"` for a missing or non-numeric value, otherwise the locale text. */
  function FormatNumber(parse: ParseFloatJs, localize: LocaleFn, v: NumLike): (r: string)
    ensures !HasNumber(parse, v) ==> r == "0"
    ensures HasNumber(parse, v) ==> r == localize(AsNumber(parse, v))
  {
    if Missing(v) then "0"
    else
      var num := AsNumber(parse, v);
      if num.NaN? then "0" else localize(num)
  }

  /** `formatNumber` agrees with `safeParseFloat` defaulting to 0, except that the default is shown as `"0"`. */
  lemma FormatNumberViaSafeParse(parse: ParseFloatJs, localize: LocaleFn, v: NumLike)
    requires HasNumber(parse, v)
    ensures FormatNumber(parse, localize, v) == localize(SafeParseFloat(parse, v, Finite(0.0)))
  {
  }

  /** `new Intl.NumberFormat('en-IN', { style: 'currency', currency: 'INR', ... }).format(num)`. */
  type CurrencyFn = Float -> string

  const ZeroRupees: string := "\U{20B9}0"

  /** `formatCurrency`: `₹0` for falsy values, `"0"`, or non-numeric strings; otherwise the currency text. */
  function FormatCurrency(parse: ParseFloatJs, intl: CurrencyFn, v: NumLike): (r: string)
    ensures Falsy(v) || v == StrV("0") ==> r == ZeroRupees
    ensures !Falsy(v) && v != StrV("0") && AsNumber(parse, v).NaN? ==> r == ZeroRupees
    ensures !Falsy(v) && v != StrV("0") && !AsNumber(parse, v).NaN? ==> r == intl(AsNumber(parse, v))
  {
    if Falsy(v) || v == StrV("0") || v == NumV(Finite(0.0)) then ZeroRupees
    else
      var num := AsNumber(parse, v);
      if num.NaN? then ZeroRupees else intl(num)
  }

  /** Every value without a non-zero number shows as `₹0`: the currency text is only asked for a non-zero, non-NaN number. */
  lemma CurrencyOnlyForNonZero(parse: ParseFloatJs, intl: CurrencyFn, v: NumLike)
    requires FormatCurrency(parse, intl, v) != ZeroRupees
    ensures HasNumber(parse, v) && !Falsy(v)
    ensures FormatCurrency(parse, intl, v) == intl(AsNumber(parse, v))
  {
  }

  /** `num.toFixed(2)`. */
  type FixedFn = Float -> string

  /** The percent badge: placeholder `--`, or the direction with the `toFixed(2)` text and `%`. */
  datatype PercentDisplay = Dashes | Badge(positive: bool, text: string)

  /** `!value && value !== 0`: falsy, except for the number zero. */
  predicate Blank(v: NumLike) {
    Falsy(v) && v != NumV(Finite(0.0))
  }

  /** `formatPercent`. */
  function FormatPercent(parse: ParseFloatJs, fixed: FixedFn, v: NumLike): (r: PercentDisplay)
    ensures r.Dashes? <==> Blank(v) || AsNumber(parse, v).NaN?
    ensures r.Badge? ==> r.positive == GeF(AsNumber(parse, v), 0.0)
    ensures r.Badge? ==> r.text == fixed(AsNumber(parse, v)) + "%"
    ensures v == NumV(Finite(0.0)) ==> r == Badge(true, fixed(Finite(0.0)) + "%")
  {
    if Blank(v) then Dashes
    else
      var num := AsNumber(parse, v);
      if num.NaN? then Dashes
      else Badge(GeF(num, 0.0), fixed(num) + "%")
  }

  /** `getPnLColor`. */
  function GetPnLColor(parse: ParseFloatJs, v: NumLike): (c: string)
    ensures c in {"text-gray-500", "text-green-600", "text-red-600"}
    ensures c == "text-gray-500" <==> Blank(v) || AsNumber(parse, v).NaN?
    ensures c == "text-green-600" ==> GeF(AsNumber(parse, v), 0.0)
    ensures c == "text-red-600" ==> LtF(AsNumber(parse, v), 0.0)
  {
    if Blank(v) then "text-gray-500"
    else
      var num := AsNumber(parse, v);
      if num.NaN? then "text-gray-500"
      else if GeF(num, 0.0) then "text-green-600" else "text-red-600"
  }

  /** The badge's colour class, as `formatPercent` writes it. */
  function BadgeColor(d: PercentDisplay): string {
    match d
    case Dashes => "text-gray-500"
    case Badge(positive, _) => if positive then "text-green-600" else "text-red-600"
  }

  /** The percent badge and the P&L colour agree on every input: dashes are grey, and the direction picks green or red. */
  lemma PercentAgreesWithPnL(parse: ParseFloatJs, fixed: FixedFn, v: NumLike)
    ensures BadgeColor(FormatPercent(parse, fixed, v)) == GetPnLColor(parse, v)
  {
  }

  /** The scale `formatLargeNumber` picks. */
  datatype Magnitude = Zero | Crore | Lakh | Thousand | Plain

  const CroreUnit: real := 10000000.0
  const LakhUnit: real := 100000.0
  const ThousandUnit: real := 1000.0

  /** The scale for a number `safeParseFloat` produced (never NaN). */
  function MagnitudeOf(num: Float): (m: Magnitude)
    requires !num.NaN?
    ensures m == Zero <==> num == Finite(0.0)
    ensures m == Crore <==> num != Finite(0.0) && GeF(AbsF(num), CroreUnit)
    ensures m == Lakh <==> num != Finite(0.0) && !GeF(AbsF(num), CroreUnit) && GeF(AbsF(num), LakhUnit)
    ensures m == Thousand <==> num != Finite(0.0) && !GeF(AbsF(num), LakhUnit) && GeF(AbsF(num), ThousandUnit)
    ensures m == Plain <==> num != Finite(0.0) && !GeF(AbsF(num), ThousandUnit)
  {
    if num == Finite(0.0) then Zero
    else if GeF(AbsF(num), CroreUnit) then Crore
    else if GeF(AbsF(num), LakhUnit) then Lakh
    else if GeF(AbsF(num), ThousandUnit) then Thousand
    else Plain
  }

  /** IEEE `x / d` for a positive finite divisor. */
  function ScaleDown(x: Float, d: real): (r: Float)
    requires d > 0.0
    ensures x.Finite? ==> r == Finite(x.v / d)
    ensures !x.Finite? ==> r == x
  {
    match x
    case Finite(v) => Finite(v / d)
    case other => other
  }

  /** The unit and suffix of a scale. */
  function Unit(m: Magnitude): real
    requires m == Crore || m == Lakh || m == Thousand
  {
    match m
    case Crore => CroreUnit
    case Lakh => LakhUnit
    case Thousand => ThousandUnit
  }

  function Suffix(m: Magnitude): string
    requires m == Crore || m == Lakh || m == Thousand
  {
    match m
    case Crore => "Cr"
    case Lakh => "L"
    case Thousand => "K"
  }

  /** `formatLargeNumber`. */
  function FormatLargeNumber(parse: ParseFloatJs, fixed: FixedFn, localize: LocaleFn, v: NumLike): (r: string)
    ensures var num := SafeParseFloat(parse, v, Finite(0.0));
            !num.NaN? &&
            (num == Finite(0.0) ==> r == "0") &&
            (MagnitudeOf(num) == Plain ==> r == localize(num)) &&
            (MagnitudeOf(num) in {Crore, Lakh, Thousand} ==>
              r == fixed(ScaleDown(num, Unit(MagnitudeOf(num)))) + Suffix(MagnitudeOf(num)))
  {
    var num := SafeParseFloat(parse, v, Finite(0.0));
    match MagnitudeOf(num)
    case Zero => "0"
    case Crore => fixed(ScaleDown(num, CroreUnit)) + "Cr"
    case Lakh => fixed(ScaleDown(num, LakhUnit)) + "L"
    case Thousand => fixed(ScaleDown(num, ThousandUnit)) + "K"
    case Plain => FormatNumber(parse, localize, NumV(num))
  }

  /** Below a crore, the number shown before `L` or `K` lies in [1, 100) in absolute value; a finite crore mantissa is at least 1. */
  lemma MantissaRange(num: Float)
    requires !num.NaN?
    ensures MagnitudeOf(num) in {Lakh, Thousand} ==>
      num.Finite? && 1.0 <= Abs(ScaleDown(num, Unit(MagnitudeOf(num))).v) < 100.0
    ensures MagnitudeOf(num) == Crore && num.Finite? ==> Abs(ScaleDown(num, CroreUnit).v) >= 1.0
  {
    if num.Finite? {
      var a := Abs(num.v);
      match MagnitudeOf(num)
      case Lakh =>
        assert LakhUnit <= a < CroreUnit;
        assert Abs(num.v / LakhUnit) == a / LakhUnit;
      case Thousand =>
        assert ThousandUnit <= a < LakhUnit;
        assert Abs(num.v / ThousandUnit) == a / ThousandUnit;
      case Crore =>
        assert Abs(num.v / CroreUnit) == a / CroreUnit;
      case _ =>
    }
  }
}
