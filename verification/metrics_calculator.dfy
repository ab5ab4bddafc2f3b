/**
 * Metric derivation from the uploaded statement tables
 * (backend/metrics/metrics_calculator.py): cell cleaning, growth series,
 * share scaling, trailing-twelve-month figures with their fallbacks, CAGR,
 * and the record handed on to the DCF, sensitivity and EPS steps.
 *
 * Every `round(x, n)` of the source is applied through the `rnd` oracle and
 * every fractional power through `pow`, so the contracts are exact about
 * where rounding happens without fixing its decimal behaviour.
 */
module MetricsCalculator {
  import opened Wrappers
  import opened Numeric
  import opened Text
  import opened PyModel

  /** The four statements of an upload. */
  datatype Statements = Statements(pnl: Table, bs: Table, cf: Table, quarters: Table)

  /** `safe_divide` on numbers that are already floats: 0.0 for a zero denominator. */
  function SafeDivide(n: real, d: real): (r: real)
    ensures d == 0.0 ==> r == 0.0
    ensures d != 0.0 ==> r * d == n && r == n / d
  {
    if d == 0.0 then 0.0 else n / d
  }

  /** Python `a / b` on extended floats, raising only on a zero divisor. */
  function FloatDiv(a: Float, b: Float): (r: Result<Float, PyError>)
    ensures r.Failure? <==> b == Finite(0.0)
    ensures a.Finite? && b.Finite? && b.v != 0.0 ==> r == Success(Finite(a.v / b.v))
    ensures a.NaN? || b.NaN? ==> r.Success? ==> r.value.NaN?
  {
    if b == Finite(0.0) then Failure(ZeroDivisionError)
    else match (a, b)
      case (NaN, _) => Success(NaN)
      case (_, NaN) => Success(NaN)
      case (Finite(x), Finite(y)) => Success(Finite(x / y))
      case (Finite(_), _) => Success(Finite(0.0))
      case (PosInf, Finite(y)) => Success(if y > 0.0 then PosInf else NegInf)
      case (NegInf, Finite(y)) => Success(if y > 0.0 then NegInf else PosInf)
      case (_, _) => Success(NaN)
  }

  /** The denominators `safe_divide` screens out with `not in (0, None)`. */
  predicate ScreenedOut(d: PyValue) {
    d.PyNone? || d == PyInt(0) || d == PyBool(false) || d == PyFloat(Finite(0.0))
  }

  /**
   * `safe_divide` on arbitrary values: a screened-out denominator, a failed
   * `float()` conversion or a zero divisor after conversion all give 0.0; the
   * function never raises.
   */
  function SafeDivideValue(parse: ParseFloatFn, n: PyValue, d: PyValue): (r: Float)
    ensures ScreenedOut(d) ==> r == Finite(0.0)
    ensures FloatOf(parse, n).Failure? || FloatOf(parse, d).Failure? ==> r == Finite(0.0)
    ensures FloatOf(parse, d) == Success(Finite(0.0)) ==> r == Finite(0.0)
  {
    if ScreenedOut(d) then Finite(0.0)
    else match (FloatOf(parse, n), FloatOf(parse, d))
      case (Success(a), Success(b)) =>
        (match FloatDiv(a, b)
         case Success(q) => q
         case Failure(_) => Finite(0.0))
      case (_, _) => Finite(0.0)
  }

  /** On finite floats the general `safe_divide` is the numeric one. */
  lemma SafeDivideValueOnFloats(parse: ParseFloatFn, n: real, d: real)
    ensures SafeDivideValue(parse, PyFloat(Finite(n)), PyFloat(Finite(d))) == Finite(SafeDivide(n, d))
  {
  }

  /** `safe_last`: the last element, or 0 for an empty list. */
  function SafeLast(s: seq<real>): (r: real)
    ensures |s| == 0 ==> r == 0.0
    ensures |s| > 0 ==> r == s[|s| - 1]
  {
    if |s| == 0 then 0.0 else s[|s| - 1]
  }

  /** The cells `get_values` maps to 0 before trying `float()`. */
  predicate MissingCell(v: PyValue) {
    v == PyStr("NaT") || v.PyNone? || v == PyStr("") || v == PyFloat(NaN)
    || (v.PyStr? && Lower(v.s) == "nan")
  }

  /**
   * A cell `get_values` turns into a finite number: one it zeroes, one
   * `float()` rejects, or one `float()` reads as finite. The cleaned rows
   * are sequences of reals, so cells read as inf or nan are outside the model.
   */
  predicate FiniteCell(parse: ParseFloatFn, v: PyValue) {
    MissingCell(v) || FloatOf(parse, v).Failure? || FloatOf(parse, v).value.Finite?
  }

  /** One cleaned cell of `get_values`. */
  function CleanCell(parse: ParseFloatFn, v: PyValue): (x: real)
    requires FiniteCell(parse, v)
    ensures MissingCell(v) ==> x == 0.0
    ensures !MissingCell(v) && FloatOf(parse, v).Failure? ==> x == 0.0
    ensures !MissingCell(v) && FloatOf(parse, v).Success? ==> FloatOf(parse, v) == Success(Finite(x))
  {
    if MissingCell(v) then 0.0
    else match FloatOf(parse, v)
      case Success(f) => f.v
      case Failure(_) => 0.0
  }

  /** A table all of whose cells are finite once cleaned. */
  predicate FiniteTable(parse: ParseFloatFn, t: Table) {
    forall key, k :: key in t && 0 <= k < |t[key]| ==> FiniteCell(parse, t[key][k])
  }

  /**
   * `get_values(table, label)`: the row cut to the number of years (or that
   * many zeros when the label is absent), each cell cleaned.
   */
  function GetValues(parse: ParseFloatFn, t: Table, name: string, nYears: nat): (r: seq<real>)
    requires FiniteTable(parse, t)
    ensures name !in t ==> r == seq(nYears, _ => 0.0)
    ensures name in t ==> |r| == MinNat(|t[name]|, nYears)
    ensures name in t ==> forall k :: 0 <= k < |r| ==> r[k] == CleanCell(parse, t[name][k])
  {
    if name !in t then seq(nYears, _ => 0.0)
    else
      var row := t[name];
      seq(MinNat(|row|, nYears), k requires 0 <= k < MinNat(|row|, nYears) => CleanCell(parse, row[k]))
  }

  /** `sum_last_4`: the sum of the last four entries, or of all when fewer. */
  function SumLast4(s: seq<real>): (r: real)
    ensures |s| == 0 ==> r == 0.0
    ensures |s| < 4 ==> r == Sum(s)
    ensures |s| >= 4 ==> r == Sum(s[|s| - 4..])
  {
    if |s| == 0 then 0.0
    else if |s| < 4 then Sum(s)
    else Sum(s[|s| - 4..])
  }

  /** Appending a quarter to a run of four or more slides the window: the oldest quarter drops out. */
  lemma SumLast4Slides(s: seq<real>, q: real)
    requires |s| >= 4
    ensures SumLast4(s + [q]) == SumLast4(s) - s[|s| - 4] + q
  {
    var w := s[|s| - 4..];
    var w' := (s + [q])[|s| - 3..];
    assert w == [s[|s| - 4]] + w[1..];
    assert w' == w[1..] + [q];
    SumAppend([s[|s| - 4]], w[1..]);
    SumAppend(w[1..], [q]);
    SumSingleton(s[|s| - 4]);
    SumSingleton(q);
  }

  /** One step of `calculate_growth`, from `prev` to `curr`. */
  function Growth(rnd: RoundFn, prev: real, curr: real): real {
    if prev == 0.0 then 0.0
    else if (prev < 0.0 < curr) || (prev > 0.0 > curr) then rnd(SafeDivide(curr - prev, Abs(prev)) * 100.0, 2)
    else rnd((SafeDivide(curr, prev) - 1.0) * 100.0, 2)
  }

  /** `calculate_growth`: one step per consecutive pair. */
  function CalculateGrowth(rnd: RoundFn, s: seq<real>): (r: seq<real>)
    ensures |r| == if |s| == 0 then 0 else |s| - 1
    ensures forall k :: 0 <= k < |r| ==> r[k] == Growth(rnd, s[k], s[k + 1])
  {
    if |s| == 0 then [] else seq(|s| - 1, k requires 0 <= k < |s| - 1 => Growth(rnd, s[k], s[k + 1]))
  }

  lemma DivMinusOne(a: real, b: real)
    requires b != 0.0
    ensures a / b - 1.0 == (a - b) / b
  {
    assert b / b == 1.0;
    assert (a - b) / b == a / b - b / b;
  }

  lemma NegateDivisor(a: real, b: real)
    requires b != 0.0
    ensures a / b == -(a / -b)
  {
    var q := a / b;
    var w := a / -b;
    assert q * b == a;
    assert w * -b == a;
    assert (-w) * b == q * b;
  }

  /**
   * The three cases of a growth step: 0 after a zero; after a positive value
   * the change relative to it; after a negative value the change relative
   * to its magnitude when the sign flips, but its negation when the sign
   * stays (a loss shrinking from -10 to -5 reads as -50%).
   */
  lemma GrowthCases(rnd: RoundFn, prev: real, curr: real)
    ensures prev == 0.0 ==> Growth(rnd, prev, curr) == 0.0
    ensures prev > 0.0 ==> Growth(rnd, prev, curr) == rnd((curr - prev) / prev * 100.0, 2)
    ensures prev < 0.0 < curr ==> Growth(rnd, prev, curr) == rnd((curr - prev) / Abs(prev) * 100.0, 2)
    ensures prev < 0.0 && curr <= 0.0 ==> Growth(rnd, prev, curr) == rnd(-((curr - prev) / Abs(prev)) * 100.0, 2)
  {
    if prev != 0.0 {
      DivMinusOne(curr, prev);
    }
    if prev < 0.0 && curr <= 0.0 {
      NegateDivisor(curr - prev, prev);
    }
  }

  /**
   * Share counts scaled to crores (`/ 1e7`, rounded to 2 places); a final
   * count of exactly 0 is replaced by the previous one when there is one.
   */
  function ScaleShares(rnd: RoundFn, raw: seq<real>): (r: seq<real>)
    ensures |r| == |raw|
    ensures forall k :: 0 <= k < |raw| - 1 ==> r[k] == rnd(raw[k] / 10000000.0, 2)
    ensures |raw| == 1 ==> r[0] == rnd(raw[0] / 10000000.0, 2)
    ensures |raw| > 1 ==>
              r[|r| - 1] == (if rnd(raw[|raw| - 1] / 10000000.0, 2) == 0.0 then r[|r| - 2] else rnd(raw[|raw| - 1] / 10000000.0, 2))
  {
    // `safe_divide(share, 10000000)`: the constant divisor is never zero.
    var scaled := seq(|raw|, k requires 0 <= k < |raw| => rnd(raw[k] / 10000000.0, 2));
    if |scaled| > 1 && scaled[|scaled| - 1] == 0.0 then scaled[|scaled| - 1 := scaled[|scaled| - 2]]
    else scaled
  }

  /** After scaling, the last count is zero only if the one before it is zero too (or it stands alone). */
  lemma ScaleSharesLastNonZero(rnd: RoundFn, raw: seq<real>)
    requires |raw| > 1
    requires rnd(raw[|raw| - 2] / 10000000.0, 2) != 0.0
    ensures ScaleShares(rnd, raw)[|raw| - 1] != 0.0
  {
  }

  /**
   * `calculate_cagr` over a series: with at least four points and a
   * positive fourth-from-last point, the rounded three-period CAGR to the
   * last point; 0.0 otherwise. A negative ratio gives a complex root,
   * whose `round` raises and is caught, so it also yields 0.0.
   */
  function CalculateCagr(rnd: RoundFn, pow: PowFn, v: seq<real>): (r: real)
    ensures |v| < 4 ==> r == 0.0
    ensures |v| >= 4 && v[|v| - 4] <= 0.0 ==> r == 0.0
    ensures |v| >= 4 && v[|v| - 4] > 0.0 && v[|v| - 1] < 0.0 ==> r == 0.0
    ensures |v| >= 4 && v[|v| - 4] > 0.0 && v[|v| - 1] == 0.0 ==> r == rnd(-100.0, 2)
    ensures |v| >= 4 && v[|v| - 4] > 0.0 && v[|v| - 1] > 0.0 ==>
      r == rnd((pow(v[|v| - 1] / v[|v| - 4], 1.0 / 3.0) - 1.0) * 100.0, 2)
  {
    if |v| >= 4 && v[|v| - 4] > 0.0 then
      var ratio := SafeDivide(v[|v| - 1], v[|v| - 4]);
      match RootPow(pow, ratio, 3)
      case RealPow(x) => rnd((x - 1.0) * 100.0, 2)
      case ComplexPow => 0.0
    else 0.0
  }

  /** The fixed assumptions the metrics record carries for the valuation steps. */
  datatype Assumptions = Assumptions(
    wacc: real, terminalGrowthRate: real, wcChangePct: real, interestPct: real,
    growthX: real, growthY: real, periodX: int, periodY: int,
    growthTerminal: real, fairvaluePe: real)

  /**
   * The literal's values; `wacc` appears twice in the dict literal and the
   * later 13 wins over 12.0.
   */
  const DefaultAssumptions := Assumptions(13.0, 3.0, 2.0, 13.0, 12.0, 9.0, 5, 15, 3.0, 20.0)

  /** The cleaned rows `calculate_metrics` reads. */
  datatype Raw = Raw(
    revenue: seq<real>, rawMaterial: seq<real>, inventoryChange: seq<real>, powerFuel: seq<real>,
    otherMfr: seq<real>, employee: seq<real>, sellingAdmin: seq<real>, otherExp: seq<real>,
    otherIncome: seq<real>, netProfit: seq<real>, interest: seq<real>, depreciation: seq<real>,
    tax: seq<real>, reserves: seq<real>, equityCapital: seq<real>, debt: seq<real>,
    cash: seq<real>, investments: seq<real>, cwip: seq<real>, shares: seq<real>,
    qSales: seq<real>, qOp: seq<real>, qOtherIncome: seq<real>, qDepreciation: seq<real>,
    qInterest: seq<real>, qNp: seq<real>)

  predicate FiniteStatements(parse: ParseFloatFn, st: Statements) {
    FiniteTable(parse, st.pnl) && FiniteTable(parse, st.bs) && FiniteTable(parse, st.cf) && FiniteTable(parse, st.quarters)
  }

  /** All `get_values` reads, with the labels the source uses. */
  function ReadRaw(parse: ParseFloatFn, st: Statements, n: nat): (raw: Raw)
    requires FiniteStatements(parse, st)
    ensures raw.revenue == GetValues(parse, st.pnl, "Sales", n)
    ensures raw.netProfit == GetValues(parse, st.pnl, "Net profit", n)
    ensures raw.shares == GetValues(parse, st.bs, "No. of Equity Shares", n)
    ensures raw.qSales == GetValues(parse, st.quarters, "Sales", n)
    ensures raw.debt == GetValues(parse, st.bs, "Borrowings", n)
    ensures raw.cash == GetValues(parse, st.bs, "Cash & Bank", n)
    ensures raw.investments == GetValues(parse, st.bs, "Investments", n)
  {
    var revenue := GetValues(parse, st.pnl, "Sales", n);
    Raw(
      revenue,
      GetValues(parse, st.pnl, "Raw Material Cost", n),
      GetValues(parse, st.pnl, "Change in Inventory", n),
      GetValues(parse, st.pnl, "Power and Fuel", n),
      GetValues(parse, st.pnl, "Other Mfr. Exp", n),
      GetValues(parse, st.pnl, "Employee Cost", n),
      GetValues(parse, st.pnl, "Selling and admin", n),
      GetValues(parse, st.pnl, "Other Expenses", n),
      PyTake(GetValues(parse, st.pnl, "Other Income", n), |revenue|),
      GetValues(parse, st.pnl, "Net profit", n),
      GetValues(parse, st.pnl, "Interest", n),
      GetValues(parse, st.pnl, "Depreciation", n),
      GetValues(parse, st.pnl, "Tax", n),
      GetValues(parse, st.bs, "Reserves", n),
      GetValues(parse, st.bs, "Equity Share Capital", n),
      GetValues(parse, st.bs, "Borrowings", n),
      GetValues(parse, st.bs, "Cash & Bank", n),
      GetValues(parse, st.bs, "Investments", n),
      GetValues(parse, st.bs, "Capital Work in Progress", n),
      GetValues(parse, st.bs, "No. of Equity Shares", n),
      GetValues(parse, st.quarters, "Sales", n),
      GetValues(parse, st.quarters, "Operating Profit", n),
      GetValues(parse, st.quarters, "Other Income", n),
      GetValues(parse, st.quarters, "Depreciation", n),
      GetValues(parse, st.quarters, "Interest", n),
      GetValues(parse, st.quarters, "Net profit", n))
  }

  /** `zip` of two series mapped through `f`. */
  function Zip2(f: (real, real) -> real, a: seq<real>, b: seq<real>): (r: seq<real>)
    ensures |r| == MinNat(|a|, |b|)
    ensures forall k :: 0 <= k < |r| ==> r[k] == f(a[k], b[k])
  {
    seq(MinNat(|a|, |b|), k requires 0 <= k < MinNat(|a|, |b|) => f(a[k], b[k]))
  }

  /** `zip` of three series mapped through `f`. */
  function Zip3(f: (real, real, real) -> real, a: seq<real>, b: seq<real>, c: seq<real>): (r: seq<real>)
    ensures |r| == MinNat(MinNat(|a|, |b|), |c|)
    ensures forall k :: 0 <= k < |r| ==> r[k] == f(a[k], b[k], c[k])
  {
    var n := MinNat(MinNat(|a|, |b|), |c|);
    seq(n, k requires 0 <= k < n => f(a[k], b[k], c[k]))
  }

  /** EBITDA per year: revenue less the operating cost lines, plus the inventory change. */
  function Ebitda(rnd: RoundFn, raw: Raw, minLen: nat): (r: seq<real>)
    ensures |r| <= |raw.revenue| && |r| <= |raw.rawMaterial| && |r| <= |raw.inventoryChange|
    ensures |r| <= |raw.powerFuel| && |r| <= |raw.otherMfr| && |r| <= |raw.employee|
    ensures |r| <= |raw.sellingAdmin| && |r| <= |raw.otherExp| && |r| <= minLen
    ensures forall k :: 0 <= k < |r| ==>
      r[k] == rnd(raw.revenue[k] - raw.rawMaterial[k] + raw.inventoryChange[k] - raw.powerFuel[k]
                  - raw.otherMfr[k] - raw.employee[k] - raw.sellingAdmin[k] - raw.otherExp[k], 2)
  {
    var oe := PyTake(raw.otherExp, minLen);
    var n := MinNat(MinNat(MinNat(MinNat(|raw.revenue|, |raw.rawMaterial|), MinNat(|raw.inventoryChange|, |raw.powerFuel|)),
                           MinNat(MinNat(|raw.otherMfr|, |raw.employee|), |raw.sellingAdmin|)), |oe|);
    seq(n, k requires 0 <= k < n =>
      rnd(raw.revenue[k] - raw.rawMaterial[k] + raw.inventoryChange[k] - raw.powerFuel[k]
          - raw.otherMfr[k] - raw.employee[k] - raw.sellingAdmin[k] - oe[k], 2))
  }

  /** `min_len`: the common length of the revenue, net-profit and depreciation rows. */
  function MinLen(raw: Raw): nat {
    MinNat(MinNat(|raw.revenue|, |raw.netProfit|), |raw.depreciation|)
  }

  /** Annual EBIT: EBITDA plus other income less depreciation. */
  function AnnualEbit(rnd: RoundFn, raw: Raw): seq<real> {
    Zip3((e, oi, d) => rnd(e + oi - d, 2), Ebitda(rnd, raw, MinLen(raw)), raw.otherIncome, raw.depreciation)
  }

  /** Quarterly EBIT: operating profit plus other income less depreciation. */
  function QuarterlyEbit(rnd: RoundFn, raw: Raw): seq<real> {
    Zip3((e, oi, d) => rnd(e + oi - d, 2), raw.qOp, raw.qOtherIncome, raw.qDepreciation)
  }

  /** The trailing-twelve-month figures. */
  datatype Ttm = Ttm(sales: real, op: real, np: real, ebit: real, interest: real)

  /**
   * A TTM figure: the rounded sum of the last four quarters (of all of them
   * when there are fewer), unless that rounds to 0 and the annual
   * `fallback` stands in. The figure is 0 only when both are.
   */
  function TtmOr(rnd: RoundFn, quarters: seq<real>, fallback: real): (r: real)
    ensures var window := quarters[|quarters| - MinNat(4, |quarters|)..];
            r == rnd(Sum(window), 2) || r == fallback
    ensures var window := quarters[|quarters| - MinNat(4, |quarters|)..];
            rnd(Sum(window), 2) != 0.0 ==> r == rnd(Sum(window), 2)
    ensures r == 0.0 <==> rnd(SumLast4(quarters), 2) == 0.0 && fallback == 0.0
  {
    assert quarters[|quarters| - MinNat(4, |quarters|)..] == (if |quarters| >= 4 then quarters[|quarters| - 4..] else quarters);
    var s := rnd(SumLast4(quarters), 2);
    if s == 0.0 then fallback else s
  }

  /**
   * The TTM figures. The sales fallback indexes `revenue[-1]`, so it needs
   * a non-empty revenue series when the quarterly sum rounds to 0; the other
   * fallbacks use `safe_last` and cannot fail.
   */
  function TtmOf(rnd: RoundFn, raw: Raw): (t: Ttm)
    requires rnd(SumLast4(raw.qSales), 2) != 0.0 || |raw.revenue| > 0
    ensures t.sales == TtmOr(rnd, raw.qSales, SafeLast(raw.revenue))
    ensures t.op == TtmOr(rnd, raw.qOp, SafeLast(Ebitda(rnd, raw, MinLen(raw))))
    ensures t.np == TtmOr(rnd, raw.qNp, SafeLast(raw.netProfit))
    ensures t.ebit == TtmOr(rnd, QuarterlyEbit(rnd, raw), SafeLast(AnnualEbit(rnd, raw)))
    ensures t.interest == rnd(SumLast4(raw.qInterest), 2)
  {
    Ttm(
      (var sales := rnd(SumLast4(raw.qSales), 2); if sales == 0.0 then raw.revenue[|raw.revenue| - 1] else sales),
      TtmOr(rnd, raw.qOp, SafeLast(Ebitda(rnd, raw, MinLen(raw)))),
      TtmOr(rnd, raw.qNp, SafeLast(raw.netProfit)),
      TtmOr(rnd, QuarterlyEbit(rnd, raw), SafeLast(AnnualEbit(rnd, raw))),
      rnd(SumLast4(raw.qInterest), 2))
  }

  /** The annual series the report charts. */
  datatype Series = Series(
    revenue: seq<real>, netProfit: seq<real>, ebitda: seq<real>, ebit: seq<real>,
    equity: seq<real>, netDebt: seq<real>, cashAndInvestments: seq<real>, fcf: seq<real>,
    shares: seq<real>, revenueGrowth: seq<real>, ebitdaGrowth: seq<real>, netProfitGrowth: seq<real>,
    ebitdaMargin: seq<real>, netProfitMargin: seq<real>,
    qSales: seq<real>, qSalesGrowth: seq<real>, qNetProfitGrowth: seq<real>)

  /** Per-period net debt: borrowings less cash and investments. */
  function NetDebt(rnd: RoundFn, raw: Raw): (r: seq<real>)
    ensures |r| == MinNat(MinNat(|raw.debt|, |raw.cash|), |raw.investments|)
    ensures forall k :: 0 <= k < |r| ==> r[k] == rnd(raw.debt[k] - raw.cash[k] - raw.investments[k], 2)
  {
    Zip3((d, c, i) => rnd(d - c - i, 2), raw.debt, raw.cash, raw.investments)
  }

  function SeriesOf(rnd: RoundFn, raw: Raw): (s: Series)
    ensures s.revenue == raw.revenue && s.netProfit == raw.netProfit
    ensures s.ebitda == Ebitda(rnd, raw, MinLen(raw)) && s.ebit == AnnualEbit(rnd, raw)
    ensures s.netDebt == NetDebt(rnd, raw) && s.shares == ScaleShares(rnd, raw.shares)
    ensures s.revenueGrowth == CalculateGrowth(rnd, raw.revenue)
  {
    var minLen := MinLen(raw);
    var ebitda := Ebitda(rnd, raw, minLen);
    var revMin := PyTake(raw.revenue, minLen);
    Series(
      raw.revenue, raw.netProfit, ebitda, AnnualEbit(rnd, raw),
      Zip2((e, res) => rnd(e + res, 2), raw.equityCapital, raw.reserves),
      NetDebt(rnd, raw),
      Zip2((c, i) => rnd(c + i, 2), raw.cash, raw.investments),
      Zip3((n, d, c) => rnd(n + d - c, 2), PyTake(raw.netProfit, minLen), PyTake(raw.depreciation, minLen), PyTake(raw.cwip, minLen)),
      ScaleShares(rnd, raw.shares),
      CalculateGrowth(rnd, raw.revenue), CalculateGrowth(rnd, ebitda), CalculateGrowth(rnd, raw.netProfit),
      Zip2((e, rv) => rnd(SafeDivide(e, rv) * 100.0, 2), ebitda, revMin),
      Zip2((n, rv) => rnd(SafeDivide(n, rv) * 100.0, 2), PyTake(raw.netProfit, minLen), revMin),
      raw.qSales, CalculateGrowth(rnd, raw.qSales), CalculateGrowth(rnd, raw.qNp))
  }

  /** The scalar figures the valuation steps read. */
  datatype Scalars = Scalars(
    ebitMargin: real, ttmInterestExpPct: real, ttmEps: real,
    taxRate: real, capexPct: real, depreciationPct: real,
    latestNetDebt: real, ev: real, marketCap: real, currentPrice: real,
    revenueCagr3y: real, epsCagr3y: real, sharesOutstanding: real)

  /** `latest_net_debt`: the last net-debt figure, 0 when there is none. */
  function LatestNetDebt(rnd: RoundFn, netDebt: seq<real>): (r: real)
    ensures |netDebt| == 0 ==> r == 0.0
    ensures |netDebt| > 0 ==> r == rnd(netDebt[|netDebt| - 1], 2)
  {
    if |netDebt| > 0 then rnd(netDebt[|netDebt| - 1], 2) else 0.0
  }

  function ScalarsOf(rnd: RoundFn, pow: PowFn, raw: Raw, s: Series, t: Ttm, marketCap: real, price: real): (c: Scalars)
    requires |s.shares| > 0
    ensures c.latestNetDebt == LatestNetDebt(rnd, s.netDebt)
    ensures c.ev == rnd(marketCap + c.latestNetDebt, 2)
    ensures c.sharesOutstanding == s.shares[|s.shares| - 1]
    ensures c.revenueCagr3y == rnd(CalculateCagr(rnd, pow, s.revenue), 2)
    ensures c.ebitMargin == rnd(SafeDivide(t.ebit, t.sales) * 100.0, 2)
  {
    var latestNetDebt := LatestNetDebt(rnd, s.netDebt);
    var epsValues := Zip2((n, sh) => SafeDivide(n, sh), s.netProfit, s.shares);
    Scalars(
      rnd(SafeDivide(t.ebit, t.sales) * 100.0, 2),
      if t.ebit != 0.0 then rnd(SafeDivide(t.interest, t.ebit) * 100.0, 2) else 0.0,
      rnd(SafeDivide(t.np, s.shares[|s.shares| - 1]), 2),
      if |s.ebit| > 0 then rnd(SafeDivide(SafeLast(raw.tax), SafeLast(s.ebit)) * 100.0, 2) else 0.0,
      if |raw.cwip| > 0 && |raw.revenue| > 0 then rnd(SafeDivide(SafeLast(raw.cwip), SafeLast(raw.revenue)) * 100.0, 2) else 2.0,
      if |raw.depreciation| > 0 && |raw.revenue| > 0 then rnd(SafeDivide(SafeLast(raw.depreciation), SafeLast(raw.revenue)) * 100.0, 2) else 0.0,
      latestNetDebt, rnd(marketCap + latestNetDebt, 2), marketCap, price,
      rnd(CalculateCagr(rnd, pow, s.revenue), 2),
      rnd(CalculateCagr(rnd, pow, epsValues), 2),
      s.shares[|s.shares| - 1])
  }

  /** The metrics record handed to the valuation steps. */
  datatype Metrics = Metrics(
    series: Series, ttm: Ttm, scalars: Scalars,
    revenueWithTtm: seq<real>, netProfitWithTtm: seq<real>, ebitdaWithTtm: seq<real>,
    years: seq<string>, yearsWithTtm: seq<string>, baseYear: PyValue, assumptions: Assumptions)

  /** Meta values whose `float()` is finite whenever it succeeds. */
  predicate FiniteMeta(parse: ParseFloatFn, meta: map<string, PyValue>) {
    forall k :: k in meta ==> FloatOf(parse, meta[k]).Failure? || FloatOf(parse, meta[k]).value.Finite?
  }

  /** `float(meta.get(key, 0))`. */
  function MetaFloat(parse: ParseFloatFn, meta: map<string, PyValue>, key: string): (r: Result<real, PyError>)
    requires FiniteMeta(parse, meta)
    ensures key !in meta ==> r == Success(0.0)
    ensures key in meta ==> (r.Success? <==> FloatOf(parse, meta[key]).Success?)
    ensures key in meta && r.Success? ==> FloatOf(parse, meta[key]) == Success(Finite(r.value))
    ensures key in meta && r.Failure? ==> FloatOf(parse, meta[key]) == Failure(r.error)
  {
    var v := if key in meta then meta[key] else PyInt(0);
    match FloatOf(parse, v)
    case Success(f) => Success(f.v)
    case Failure(e) => Failure(e)
  }

  /** `safe_last(years)`: the last year label, or the integer 0. */
  function BaseYearOf(years: seq<string>): (r: PyValue)
    ensures |years| > 0 <==> r.PyStr?
    ensures |years| > 0 ==> r == PyStr(years[|years| - 1])
  {
    if |years| == 0 then PyInt(0) else PyStr(years[|years| - 1])
  }

  /**
   * The metrics derived from the cleaned rows once the meta floats are
   * known. Raises `IndexError` when the TTM sales fall back to an empty
   * revenue series, or when there is no share count for `ttm_eps`.
   */
  function Derive(rnd: RoundFn, pow: PowFn, raw: Raw, years: seq<string>, marketCap: real, price: real)
    : (r: Result<Metrics, PyError>)
    ensures r.Failure? <==> (rnd(SumLast4(raw.qSales), 2) == 0.0 && |raw.revenue| == 0) || |raw.shares| == 0
    ensures r.Failure? ==> r.error == IndexError
    ensures r.Success? ==> r.value.series == SeriesOf(rnd, raw) && r.value.ttm == TtmOf(rnd, raw)
    ensures r.Success? ==> r.value.revenueWithTtm == raw.revenue + [r.value.ttm.sales]
    ensures r.Success? ==> r.value.netProfitWithTtm == raw.netProfit + [r.value.ttm.np]
    ensures r.Success? ==> r.value.ebitdaWithTtm == r.value.series.ebitda + [r.value.ttm.op]
    ensures r.Success? ==> r.value.yearsWithTtm == years + ["TTM"]
    ensures r.Success? ==> r.value.assumptions == DefaultAssumptions
  {
    if rnd(SumLast4(raw.qSales), 2) == 0.0 && |raw.revenue| == 0 then Failure(IndexError)
    else if |raw.shares| == 0 then Failure(IndexError)
    else
      var s := SeriesOf(rnd, raw);
      var t := TtmOf(rnd, raw);
      Success(Metrics(
        s, t, ScalarsOf(rnd, pow, raw, s, t, marketCap, price),
        raw.revenue + [t.sales], raw.netProfit + [t.np], s.ebitda + [t.op],
        years, years + ["TTM"], BaseYearOf(years), DefaultAssumptions))
  }

  /**
   * `calculate_metrics`. The meta floats are converted first; `ebitda`,
   * `ebit` and `equity` are bound only for the "excel" source, so any other
   * source raises `UnboundLocalError` at their first use; then the
   * `IndexError`s of `Derive`.
   */
  function CalculateMetrics(rnd: RoundFn, pow: PowFn, parse: ParseFloatFn, st: Statements,
                            years: seq<string>, meta: map<string, PyValue>, source: string)
    : (r: Result<Metrics, PyError>)
    requires FiniteStatements(parse, st) && FiniteMeta(parse, meta)
    ensures r.Success? ==> source == "excel"
    ensures (MetaFloat(parse, meta, "Market Capitalization").Success? && MetaFloat(parse, meta, "Current Price").Success?
             && source != "excel") ==> r == Failure(UnboundLocalError("ebitda"))
    ensures MetaFloat(parse, meta, "Market Capitalization").Failure? ==> r.Failure?
    ensures r.Success? ==> r.value.series.revenue == GetValues(parse, st.pnl, "Sales", |years|)
    ensures r.Success? ==> r.value.baseYear == BaseYearOf(years)
    ensures r.Success? ==> |r.value.revenueWithTtm| == |r.value.series.revenue| + 1
  {
    var mc :- MetaFloat(parse, meta, "Market Capitalization");
    var price :- MetaFloat(parse, meta, "Current Price");
    if source != "excel" then Failure(UnboundLocalError("ebitda"))
    else Derive(rnd, pow, ReadRaw(parse, st, |years|), years, mc, price)
  }
}
