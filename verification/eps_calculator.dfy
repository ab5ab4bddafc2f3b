/**
 * The EPS projection (backend/calculators/eps_calculator.py): a base row and
 * N projected rows of revenue, EBIT, interest, tax, net profit, EPS and P/E,
 * the three-year fair value, the EPS CAGR and two sensitivity grids.
 *
 * Python's exceptions on the unguarded paths are `Failure`s; `round` and the
 * fractional power are parameters.
 */
module EpsCalculator {
  import opened Wrappers
  import opened Numeric
  import opened Text
  import opened PyModel

  /** The five characters `20\dd` that the doubled backslash in the raw pattern asks for. */
  const LiteralYearPattern: string := "20\\dd"

  /** `int(x)` for a float: truncation toward zero. */
  function Truncate(x: real): (i: int)
    ensures x >= 0.0 ==> i == x.Floor
    ensures x < 0.0 ==> i == -((-x).Floor)
    ensures Abs(i as real) <= Abs(x) < Abs(i as real) + 1.0
  {
    if x >= 0.0 then x.Floor else -((-x).Floor)
  }

  /**
   * The base year: a string is searched for the pattern, whose only
   * possible match is the literal text `20\dd`, and `int()` of that match
   * raises; any other string falls back to 2024. A non-string goes
   * through `int()`.
   */
  function ParseBaseYear(v: PyValue): (r: Result<int, PyError>)
    ensures v.PyStr? ==> (r.Failure? <==> Contains(v.s, LiteralYearPattern))
    ensures v.PyStr? && r.Success? ==> r.value == 2024
    ensures v.PyInt? ==> r == Success(v.i)
    ensures v.PyFloat? && v.f.Finite? ==> r == Success(Truncate(v.f.v))
  {
    match v
    case PyStr(s) => if ContainsDec(s, LiteralYearPattern) then Failure(ValueError) else Success(2024)
    case PyInt(i) => Success(i)
    case PyBool(b) => Success(if b then 1 else 0)
    case PyFloat(f) =>
      (match f
       case Finite(x) => Success(Truncate(x))
       case NaN => Failure(ValueError)
       case _ => Failure(OverflowError))
    case _ => Failure(TypeError)
  }

  /** An ordinary fiscal-year label such as "Mar-2024" never reaches the pattern. */
  lemma OrdinaryLabelFallsBack(s: string)
    requires '\\' !in s
    ensures ParseBaseYear(PyStr(s)) == Success(2024)
  {
    if Contains(s, LiteralYearPattern) {
      var i: nat :| i <= |s| && MatchAt(s, LiteralYearPattern, i);
      MatchAtChar(s, LiteralYearPattern, i, 2);
      assert false;
    }
  }

  datatype EpsInput = EpsInput(
    baseRevenue: real, projectionYears: int, revenueGrowth: real, ebitMargin: real,
    interestExpPct: real, taxRate: real, sharesOutstanding: real, currentPrice: real,
    baseYear: PyValue)

  /** One year's income statement from its revenue. */
  datatype Figures = Figures(ebit: real, interest: real, ebt: real, tax: real, netProfit: real, eps: real)

  /** `x / shares if shares else 0`. */
  function PerShare(x: real, shares: real): (r: real)
    ensures shares == 0.0 ==> r == 0.0
    ensures shares != 0.0 ==> r * shares == x
  {
    if shares != 0.0 then x / shares else 0.0
  }

  /**
   * EBIT at the margin, interest as a share of EBIT, tax on EBT, net profit
   * after tax, EPS over the share count (0 with no shares): net profit is
   * EBIT scaled down by the interest share and then by the tax rate.
   */
  function FiguresOf(revenue: real, margin: real, inp: EpsInput): (f: Figures)
    ensures f.ebit == revenue * margin / 100.0
    ensures f.ebt == f.ebit - f.interest && f.netProfit == f.ebt - f.tax
    ensures f.netProfit == f.ebit * (1.0 - inp.interestExpPct / 100.0) * (1.0 - inp.taxRate / 100.0)
    ensures f.eps == PerShare(f.netProfit, inp.sharesOutstanding)
  {
    var ebit := revenue * (margin / 100.0);
    var interest := ebit * (inp.interestExpPct / 100.0);
    var ebt := ebit - interest;
    var tax := ebt * (inp.taxRate / 100.0);
    var netProfit := ebt - tax;
    Figures(ebit, interest, ebt, tax, netProfit, PerShare(netProfit, inp.sharesOutstanding))
  }

  /** The revenue after `n` years of compounding at `growth` percent, multiplied year by year. */
  function Compound(base: real, growth: real, n: nat): real {
    if n == 0 then base else Compound(base, growth, n - 1) * (1.0 + growth / 100.0)
  }

  lemma {:induction false} CompoundClosedForm(base: real, growth: real, n: nat)
    ensures Compound(base, growth, n) == base * Pow(1.0 + growth / 100.0, n)
  {
    if n > 0 {
      CompoundClosedForm(base, growth, n - 1);
    }
  }

  /** The figures of projection year `i` (year 0 is the base year). */
  function YearFigures(inp: EpsInput, i: nat): Figures {
    FiguresOf(Compound(inp.baseRevenue, inp.revenueGrowth, i), inp.ebitMargin, inp)
  }

  /**
   * `pe_0 = price / eps_0 if eps_0 else None`: any non-zero base EPS gives
   * a P/E, a negative one included.
   */
  function BasePe(inp: EpsInput): (pe: Option<real>)
    ensures pe.Some? <==> YearFigures(inp, 0).eps != 0.0
    ensures pe.Some? ==> pe.value * YearFigures(inp, 0).eps == inp.currentPrice
    ensures pe.Some? ==> (pe.value != 0.0 <==> inp.currentPrice != 0.0)
  {
    var eps := YearFigures(inp, 0).eps;
    if eps != 0.0 then Some(inp.currentPrice / eps) else None
  }

  /** `price / eps if eps > 0 else None` for a projected year. */
  function ProjectedPe(inp: EpsInput, i: nat): (pe: Option<real>)
    ensures pe.Some? <==> YearFigures(inp, i).eps > 0.0
    ensures pe.Some? ==> pe.value * YearFigures(inp, i).eps == inp.currentPrice
    ensures pe.Some? ==> (pe.value != 0.0 <==> inp.currentPrice != 0.0)
  {
    var eps := YearFigures(inp, i).eps;
    if eps > 0.0 then Some(inp.currentPrice / eps) else None
  }

  /** `round(pe, 2) if pe else None`: a missing or zero P/E shows as None. */
  function ShowPe(rnd: RoundFn, pe: Option<real>): (r: Option<real>)
    ensures r.Some? <==> pe.Some? && pe.value != 0.0
    ensures r.Some? ==> r.value == rnd(pe.value, 2)
  {
    if pe.Some? && pe.value != 0.0 then Some(rnd(pe.value, 2)) else None
  }

  datatype EpsRow = EpsRow(
    year: string, revenue: real, ebit: real, interest: real, tax: real,
    netProfit: real, eps: real, pe: Option<real>)

  function YearLabel(year: int): string {
    "FY" + IntToString(year)
  }

  /** Row `i` of the projection table, every figure rounded to two places. */
  function RowOf(rnd: RoundFn, inp: EpsInput, baseYear: int, i: nat): (row: EpsRow)
    ensures row.year == YearLabel(baseYear + i + 1)
    ensures row.revenue == rnd(Compound(inp.baseRevenue, inp.revenueGrowth, i), 2)
    ensures row.eps == rnd(YearFigures(inp, i).eps, 2)
    ensures row.netProfit == rnd(YearFigures(inp, i).netProfit, 2)
    ensures i == 0 ==> (row.pe.Some? <==> YearFigures(inp, 0).eps != 0.0 && inp.currentPrice != 0.0)
    ensures i > 0 ==> (row.pe.Some? <==> YearFigures(inp, i).eps > 0.0 && inp.currentPrice != 0.0)
  {
    var f := YearFigures(inp, i);
    var pe := if i == 0 then BasePe(inp) else ProjectedPe(inp, i);
    EpsRow(YearLabel(baseYear + i + 1), rnd(Compound(inp.baseRevenue, inp.revenueGrowth, i), 2),
           rnd(f.ebit, 2), rnd(f.interest, 2), rnd(f.tax, 2), rnd(f.netProfit, 2),
           rnd(f.eps, 2), ShowPe(rnd, pe))
  }

  /**
   * `projection_table`: the base row labelled FY{base+1} on the unprojected
   * revenue, then row `i` labelled FY{base+i+1} on revenue compounded `i`
   * times; only the base row's P/E may be negative.
   */
  function ProjectionTable(rnd: RoundFn, inp: EpsInput, baseYear: int, n: nat): (t: seq<EpsRow>)
    ensures |t| == n + 1
    ensures forall i :: 0 <= i < |t| ==> t[i].year == YearLabel(baseYear + i + 1)
    ensures forall i :: 0 <= i < |t| ==>
      t[i].revenue == rnd(Compound(inp.baseRevenue, inp.revenueGrowth, i), 2)
    ensures forall i :: 0 <= i < |t| ==> t[i].eps == rnd(YearFigures(inp, i).eps, 2)
    ensures forall i :: 0 <= i < |t| ==> t[i].netProfit == rnd(YearFigures(inp, i).netProfit, 2)
    ensures t[0].pe.Some? <==> YearFigures(inp, 0).eps != 0.0 && inp.currentPrice != 0.0
    ensures forall i :: 1 <= i < |t| ==>
      (t[i].pe.Some? <==> YearFigures(inp, i).eps > 0.0 && inp.currentPrice != 0.0)
  {
    seq(n + 1, i requires 0 <= i <= n => RowOf(rnd, inp, baseYear, i))
  }

  /**
   * `eps_fair_value`: reassigned on every loop pass, so only the last pass
   * counts; it is twenty times the non-negative year-3 EPS when exactly
   * three years are projected, and 0 otherwise.
   */
  function EpsFairValue(rnd: RoundFn, inp: EpsInput, n: nat): (v: real)
    requires n >= 1
    ensures n == 3 ==> v == rnd(Max(YearFigures(inp, 3).eps, 0.0) * 20.0, 2)
    ensures n != 3 ==> v == 0.0
  {
    if n == 3 then rnd(Max(YearFigures(inp, n).eps, 0.0) * 20.0, 2) else 0.0
  }

  /**
   * `eps_cagr` before rounding: the growth from year-1 to year-N EPS over
   * N-1 periods when year-1 EPS is positive, else 0. One projected year
   * divides by zero; a negative year-N EPS raises a complex root (kept as
   * `ComplexPow` here, since Python only fails when it is rounded).
   */
  function EpsCagr(pow: PowFn, inp: EpsInput, n: nat): (r: Result<PowOutcome, PyError>)
    requires n >= 1
    ensures YearFigures(inp, 1).eps <= 0.0 ==> r == Success(RealPow(0.0))
    ensures YearFigures(inp, 1).eps > 0.0 && n == 1 ==> r == Failure(ZeroDivisionError)
    ensures YearFigures(inp, 1).eps > 0.0 && n >= 2 ==>
      r.Success? && (r.value.ComplexPow? <==> YearFigures(inp, n).eps < 0.0 && n >= 3)
    ensures YearFigures(inp, 1).eps > 0.0 && n == 2 ==>
      r == Success(RealPow((YearFigures(inp, 2).eps / YearFigures(inp, 1).eps - 1.0) * 100.0))
  {
    var start := YearFigures(inp, 1).eps;
    var end := YearFigures(inp, n).eps;
    if start <= 0.0 then Success(RealPow(0.0))
    else if n == 1 then Failure(ZeroDivisionError)
    else
      var ratio := end / start;
      assert ratio < 0.0 <==> end < 0.0;
      match RootPow(pow, ratio, n - 1)
      case RealPow(x) => Success(RealPow((x - 1.0) * 100.0))
      case ComplexPow => Success(ComplexPow)
  }

  /** The options `round(base + i * step, 1)` for `i` from `lo` to `lo + count - 1`. */
  function Options(rnd: RoundFn, base: real, step: real, lo: int, count: nat): (o: seq<real>)
    ensures |o| == count
    ensures forall k :: 0 <= k < count ==> o[k] == OptionAt(rnd, base, step, lo + k)
  {
    seq(count, k requires 0 <= k < count => OptionAt(rnd, base, step, lo + k))
  }

  /** `round(base + i * step, 1)`. */
  function OptionAt(rnd: RoundFn, base: real, step: real, i: int): real {
    rnd(base + i as real * step, 1)
  }

  datatype EpsGrid = EpsGrid(growthOptions: seq<real>, marginOptions: seq<real>, matrix: seq<seq<real>>)

  /** EPS after `n` years at a flat growth and margin, rounded. */
  function GridEps(rnd: RoundFn, inp: EpsInput, n: nat, margin: real, growth: real): real {
    rnd(FiguresOf(Compound(inp.baseRevenue, growth, n), margin, inp).eps, 2)
  }

  /**
   * Table A: growth and margin options four points apart around the inputs,
   * a 5x5 matrix with a row per margin and a column per growth, each cell
   * the year-N EPS at that flat growth and margin.
   */
  function SensitivityEps(rnd: RoundFn, inp: EpsInput, n: nat): (g: EpsGrid)
    ensures g.growthOptions == Options(rnd, inp.revenueGrowth, 4.0, -2, 5)
    ensures g.marginOptions == Options(rnd, inp.ebitMargin, 4.0, -2, 5)
    ensures |g.matrix| == 5 && forall i :: 0 <= i < 5 ==> |g.matrix[i]| == 5
    ensures forall i, j :: 0 <= i < 5 && 0 <= j < 5 ==>
      g.matrix[i][j] == GridEps(rnd, inp, n, g.marginOptions[i], g.growthOptions[j])
  {
    var growths := Options(rnd, inp.revenueGrowth, 4.0, -2, 5);
    var margins := Options(rnd, inp.ebitMargin, 4.0, -2, 5);
    EpsGrid(growths, margins,
            seq(5, i requires 0 <= i < 5 =>
              seq(5, j requires 0 <= j < 5 => GridEps(rnd, inp, n, margins[i], growths[j]))))
  }

  /**
   * When the inputs are already at one decimal, table A's centre cell is
   * the projection table's year-N EPS.
   */
  lemma SensitivityCentreIsProjection(rnd: RoundFn, inp: EpsInput, n: nat)
    requires rnd(inp.revenueGrowth, 1) == inp.revenueGrowth && rnd(inp.ebitMargin, 1) == inp.ebitMargin
    ensures SensitivityEps(rnd, inp, n).matrix[2][2] == ProjectionTable(rnd, inp, 2024, n)[n].eps
  {
    var g := SensitivityEps(rnd, inp, n);
    assert g.growthOptions[2] == rnd(inp.revenueGrowth + 0.0 * 4.0, 1);
    assert g.marginOptions[2] == rnd(inp.ebitMargin + 0.0 * 4.0, 1);
  }

  datatype PriceGrid = PriceGrid(epsOptions: seq<real>, peOptions: seq<real>, matrix: seq<seq<real>>)

  /** `max(eps * pe, 0)`: never negative, and the product itself when that is not negative. */
  function PriceCell(eps: real, pe: real): (p: real)
    ensures p >= 0.0
    ensures eps * pe >= 0.0 ==> p == eps * pe
    ensures eps * pe < 0.0 ==> p == 0.0
  {
    Max(eps * pe, 0.0)
  }

  /**
   * Table B: seven EPS options five apart around the base EPS, five P/E
   * options five apart around the base P/E, each cell a non-negative price.
   * With no base P/E (a zero base EPS), `None + i * 5` raises `TypeError`.
   */
  function SensitivityPrice(rnd: RoundFn, inp: EpsInput): (r: Result<PriceGrid, PyError>)
    ensures r.Failure? <==> BasePe(inp).None?
    ensures r.Failure? ==> r.error == TypeError
    ensures r.Success? ==>
      r.value.epsOptions == Options(rnd, YearFigures(inp, 0).eps, 5.0, -3, 7)
      && r.value.peOptions == Options(rnd, BasePe(inp).value, 5.0, -2, 5)
      && |r.value.matrix| == 7
      && (forall i :: 0 <= i < 7 ==> |r.value.matrix[i]| == 5)
      && (forall i, j :: 0 <= i < 7 && 0 <= j < 5 ==>
            r.value.matrix[i][j] == rnd(PriceCell(r.value.epsOptions[i], r.value.peOptions[j]), 2))
  {
    match BasePe(inp)
    case None => Failure(TypeError)
    case Some(pe0) =>
      var epss := Options(rnd, YearFigures(inp, 0).eps, 5.0, -3, 7);
      var pes := Options(rnd, pe0, 5.0, -2, 5);
      Success(PriceGrid(epss, pes,
        seq(7, i requires 0 <= i < 7 =>
          seq(5, j requires 0 <= j < 5 => rnd(PriceCell(epss[i], pes[j]), 2)))))
  }

  datatype EpsChart = EpsChart(years: seq<string>, eps: seq<real>, revenue: seq<real>, netProfit: seq<real>)

  /** `str(year)[-2:]`: the last two characters (the whole text when shorter). */
  function ShortYear(year: int): (s: string)
    ensures |s| <= 2 && EndsWith(IntToString(year), s)
  {
    var t := IntToString(year);
    PyDrop(t, -2)
  }

  /** `eps_chart`: one entry per projected year 1..N (the base row is left out). */
  function Chart(rnd: RoundFn, inp: EpsInput, baseYear: int, n: nat): (c: EpsChart)
    ensures |c.years| == n && |c.eps| == n && |c.revenue| == n && |c.netProfit| == n
    ensures forall i :: 0 <= i < n ==> c.years[i] == "FY" + ShortYear(baseYear + i + 1)
    ensures forall i :: 0 <= i < n ==> c.eps[i] == rnd(YearFigures(inp, i + 1).eps, 2)
    ensures forall i :: 0 <= i < n ==> c.revenue[i] == rnd(Compound(inp.baseRevenue, inp.revenueGrowth, i + 1), 2)
    ensures forall i :: 0 <= i < n ==> c.netProfit[i] == rnd(YearFigures(inp, i + 1).netProfit, 2)
  {
    EpsChart(ChartYears(baseYear, n), ChartEps(rnd, inp, n), ChartRevenue(rnd, inp, n), ChartNetProfit(rnd, inp, n))
  }

  function ChartYears(baseYear: int, n: nat): (ys: seq<string>)
    ensures |ys| == n && forall i :: 0 <= i < n ==> ys[i] == "FY" + ShortYear(baseYear + i + 1)
  {
    seq(n, i requires 0 <= i < n => "FY" + ShortYear(baseYear + i + 1))
  }

  function ChartEps(rnd: RoundFn, inp: EpsInput, n: nat): (es: seq<real>)
    ensures |es| == n && forall i :: 0 <= i < n ==> es[i] == rnd(YearFigures(inp, i + 1).eps, 2)
  {
    seq(n, i requires 0 <= i < n => rnd(YearFigures(inp, i + 1).eps, 2))
  }

  function ChartRevenue(rnd: RoundFn, inp: EpsInput, n: nat): (rs: seq<real>)
    ensures |rs| == n && forall i :: 0 <= i < n ==> rs[i] == rnd(Compound(inp.baseRevenue, inp.revenueGrowth, i + 1), 2)
  {
    seq(n, i requires 0 <= i < n => rnd(Compound(inp.baseRevenue, inp.revenueGrowth, i + 1), 2))
  }

  function ChartNetProfit(rnd: RoundFn, inp: EpsInput, n: nat): (ps: seq<real>)
    ensures |ps| == n && forall i :: 0 <= i < n ==> ps[i] == rnd(YearFigures(inp, i + 1).netProfit, 2)
  {
    seq(n, i requires 0 <= i < n => rnd(YearFigures(inp, i + 1).netProfit, 2))
  }

  /** The chart repeats the table's projected rows (the base row excluded), one for one. */
  lemma ChartMatchesTable(rnd: RoundFn, inp: EpsInput, baseYear: int, n: nat, i: nat)
    requires i < n
    ensures Chart(rnd, inp, baseYear, n).eps[i] == ProjectionTable(rnd, inp, baseYear, n)[i + 1].eps
    ensures Chart(rnd, inp, baseYear, n).netProfit[i] == ProjectionTable(rnd, inp, baseYear, n)[i + 1].netProfit
    ensures Chart(rnd, inp, baseYear, n).revenue[i] == ProjectionTable(rnd, inp, baseYear, n)[i + 1].revenue
  {
    var c := Chart(rnd, inp, baseYear, n);
    var t := ProjectionTable(rnd, inp, baseYear, n);
    assert c.revenue[i] == rnd(Compound(inp.baseRevenue, inp.revenueGrowth, i + 1), 2) == t[i + 1].revenue;
    assert c.eps[i] == rnd(YearFigures(inp, i + 1).eps, 2) == t[i + 1].eps;
    assert c.netProfit[i] == rnd(YearFigures(inp, i + 1).netProfit, 2) == t[i + 1].netProfit;
  }

  datatype EpsReport = EpsReport(
    epsFairValue: real, projectionTable: seq<EpsRow>, epsCagr: real, chart: EpsChart,
    sensitivityEps: EpsGrid, sensitivityPrice: PriceGrid)

  /**
   * `project_eps`, with its failures in the order Python meets them: the
   * base year, `eps_list[0]` with no projected year, the CAGR's division,
   * table B's missing P/E, and rounding a complex CAGR.
   */
  function ProjectEps(rnd: RoundFn, pow: PowFn, inp: EpsInput): (r: Result<EpsReport, PyError>)
    ensures ParseBaseYear(inp.baseYear).Failure? ==> r.Failure?
    ensures ParseBaseYear(inp.baseYear).Success? && inp.projectionYears <= 0 ==> r == Failure(IndexError)
    ensures inp.projectionYears >= 1 && YearFigures(inp, 0).eps == 0.0 ==> r.Failure?
    ensures r.Success? ==>
      inp.projectionYears >= 1
      && |r.value.projectionTable| == inp.projectionYears + 1
      && r.value.epsFairValue == EpsFairValue(rnd, inp, inp.projectionYears)
      && r.value.sensitivityEps == SensitivityEps(rnd, inp, inp.projectionYears)
      && BasePe(inp).Some?
    ensures r.Success? <==>
      ParseBaseYear(inp.baseYear).Success? && inp.projectionYears >= 1
      && EpsCagr(pow, inp, inp.projectionYears).Success? && EpsCagr(pow, inp, inp.projectionYears).value.RealPow?
      && BasePe(inp).Some?
    ensures r.Success? ==>
      var n := inp.projectionYears;
      var baseYear := ParseBaseYear(inp.baseYear).value;
      r.value.projectionTable == ProjectionTable(rnd, inp, baseYear, n)
      && r.value.chart == Chart(rnd, inp, baseYear, n)
      && r.value.epsCagr == rnd(EpsCagr(pow, inp, n).value.value, 2)
      && r.value.sensitivityPrice == SensitivityPrice(rnd, inp).value
  {
    var baseYear :- ParseBaseYear(inp.baseYear);
    if inp.projectionYears <= 0 then Failure(IndexError)
    else
      var n := inp.projectionYears;
      var cagr :- EpsCagr(pow, inp, n);
      var gridA := SensitivityEps(rnd, inp, n);
      var gridB :- SensitivityPrice(rnd, inp);
      match cagr
      case ComplexPow => Failure(TypeError)
      case RealPow(c) =>
        Success(EpsReport(EpsFairValue(rnd, inp, n), ProjectionTable(rnd, inp, baseYear, n),
                          rnd(c, 2), Chart(rnd, inp, baseYear, n), gridA, gridB))
  }

  /** Without shares every EPS is 0, so there is no base P/E and the projection always fails. */
  lemma NoSharesAlwaysFails(rnd: RoundFn, pow: PowFn, inp: EpsInput)
    requires inp.sharesOutstanding == 0.0
    ensures ProjectEps(rnd, pow, inp).Failure?
  {
  }
}
