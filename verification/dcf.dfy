/**
 * The three-phase discounted-cash-flow valuation (backend/routers/dcf.py):
 * revenue grows at `growth_x` for the explicit years, at `growth_y` until the
 * last year and at `growth_terminal` in the last year; each year's free cash
 * flow is discounted at `interest_pct`; a Gordon terminal value is added.
 *
 * The source does not guard its divisions. The model states them as
 * preconditions: at least one projected year (otherwise the terminal value
 * reads an unbound `fcf`), a non-zero share count, a discount base
 * `1 + interest_pct/100` that is not zero, an interest rate different from
 * the terminal growth, and (for the terminal weight) a non-zero enterprise
 * value.
 */
module Dcf {
  import opened Numeric

  datatype DcfInput = DcfInput(
    baseRevenue: real, latestNetDebt: real, sharesOutstanding: real,
    ebitMargin: real, depreciationPct: real, capexPct: real, wcChangePct: real,
    taxRate: real, interestPct: real,
    xYears: int, growthX: real, yYears: int, growthY: real, growthTerminal: real)

  /** The three growth phases. */
  datatype Phase = Explicit | Fade | Terminal

  /** The phase of projection year `year`, as the `if`/`elif`/`else` chain picks it. */
  function PhaseOf(year: int, x: int, y: int): Phase {
    if year <= x then Explicit
    else if year < y then Fade
    else Terminal
  }

  /**
   * Over the projected years 1..y: the explicit phase is exactly the years
   * up to `x`, the fade phase the years strictly between `x` and `y`, and the
   * terminal rate applies only in year `y` and only when `x < y`; when
   * `x >= y` the last year still grows at `growth_x`.
   */
  lemma PhaseOfCases(year: int, x: int, y: int)
    requires 1 <= year <= y
    ensures PhaseOf(year, x, y) == Explicit <==> year <= x
    ensures PhaseOf(year, x, y) == Fade <==> x < year < y
    ensures PhaseOf(year, x, y) == Terminal <==> year == y && x < y
    ensures x >= y ==> PhaseOf(y, x, y) == Explicit
  {
  }

  /** The growth rate, in percent, applied in projection year `year`. */
  function GrowthPct(inp: DcfInput, year: int): real {
    match PhaseOf(year, inp.xYears, inp.yYears)
    case Explicit => inp.growthX
    case Fade => inp.growthY
    case Terminal => inp.growthTerminal
  }

  /** Revenue after `year` years of compounding (`revenue *= 1 + growth`). */
  function Revenue(inp: DcfInput, year: nat): real {
    if year == 0 then inp.baseRevenue
    else Revenue(inp, year - 1) * Factor(GrowthPct(inp, year))
  }

  /** The growth factor `1 + g/100`. */
  function Factor(g: real): real {
    1.0 + g / 100.0
  }

  /** Through the explicit years revenue compounds at `growth_x`. */
  lemma {:induction false} RevenueExplicit(inp: DcfInput, year: nat)
    requires year <= inp.xYears
    ensures Revenue(inp, year) == inp.baseRevenue * Pow(Factor(inp.growthX), year)
  {
    if year > 0 {
      RevenueExplicit(inp, year - 1);
      RevenueStep(inp, year);
      assert GrowthPct(inp, year) == inp.growthX;
      PowStep(inp.baseRevenue, Factor(inp.growthX), year - 1, Revenue(inp, year - 1));
    }
  }

  /** Through the fade years revenue compounds at `growth_y` on top of the explicit phase. */
  lemma {:induction false} RevenueFade(inp: DcfInput, year: nat)
    requires 0 <= inp.xYears < year < inp.yYears
    ensures Revenue(inp, year) == inp.baseRevenue * Pow(Factor(inp.growthX), inp.xYears)
                                  * Pow(Factor(inp.growthY), year - inp.xYears)
  {
    var fy := Factor(inp.growthY);
    var px := inp.baseRevenue * Pow(Factor(inp.growthX), inp.xYears);
    var n := year - 1 - inp.xYears;
    RevenueStep(inp, year);
    assert GrowthPct(inp, year) == inp.growthY;
    if n == 0 {
      RevenueExplicit(inp, inp.xYears);
      assert Pow(fy, 0) == 1.0;
    } else {
      RevenueFade(inp, year - 1);
    }
    CompoundJoin(Revenue(inp, year), Revenue(inp, year - 1), px, fy, n);
  }

  /** A value one step of growth `f` past `a * f^n` is `a * f^(n + 1)`. */
  lemma CompoundJoin(r: real, prev: real, a: real, f: real, n: nat)
    requires r == prev * f && prev == a * Pow(f, n)
    ensures r == a * Pow(f, n + 1)
  {
    PowStep(a, f, n, prev);
  }

  /**
   * In the last year (when `0 <= x_years < y_years`) revenue is the fade
   * path extended by one year at `growth_terminal`.
   */
  lemma RevenueTerminal(inp: DcfInput)
    requires 0 <= inp.xYears < inp.yYears
    ensures Revenue(inp, inp.yYears) == inp.baseRevenue * Pow(Factor(inp.growthX), inp.xYears)
                                        * Pow(Factor(inp.growthY), inp.yYears - 1 - inp.xYears)
                                        * Factor(inp.growthTerminal)
  {
    var y := inp.yYears;
    RevenueBeforeTerminal(inp);
    assert GrowthPct(inp, y) == inp.growthTerminal;
    RevenueStep(inp, y);
  }

  /** The year before the last: the fade path, or the explicit path when there are no fade years. */
  lemma RevenueBeforeTerminal(inp: DcfInput)
    requires 0 <= inp.xYears < inp.yYears
    ensures Revenue(inp, inp.yYears - 1) == inp.baseRevenue * Pow(Factor(inp.growthX), inp.xYears)
                                            * Pow(Factor(inp.growthY), inp.yYears - 1 - inp.xYears)
  {
    var y := inp.yYears;
    if y - 1 == inp.xYears {
      RevenueExplicit(inp, inp.xYears);
      assert Pow(Factor(inp.growthY), y - 1 - inp.xYears) == 1.0;
    } else {
      RevenueFade(inp, y - 1);
    }
  }

  /** One year of compounding. */
  lemma RevenueStep(inp: DcfInput, year: nat)
    requires year > 0
    ensures Revenue(inp, year) == Revenue(inp, year - 1) * Factor(GrowthPct(inp, year))
  {
  }

  /** One row of the projection, unrounded. */
  datatype YearFlow = YearFlow(
    year: int, revenue: real, ebit: real, tax: real, nopat: real,
    depreciation: real, capex: real, wcChange: real, fcf: real, pv: real, pvPerShare: real)

  /** The conditions under which the source's divisions do not raise. */
  predicate Valid(inp: DcfInput) {
    inp.yYears >= 1 && inp.sharesOutstanding != 0.0
    && inp.interestPct != -100.0 && inp.interestPct != inp.growthTerminal
  }

  /** The discount base `1 + interest_pct / 100`. */
  function DiscountBase(inp: DcfInput): real {
    1.0 + inp.interestPct / 100.0
  }

  /** The share of revenue that ends up as free cash flow. */
  function FcfMargin(inp: DcfInput): real {
    inp.ebitMargin / 100.0 * (1.0 - inp.taxRate / 100.0)
    + inp.depreciationPct / 100.0 - inp.capexPct / 100.0 - inp.wcChangePct / 100.0
  }

  /** Projection year `year`: EBIT, tax, NOPAT and the cash-flow lines from that year's revenue. */
  function Flow(inp: DcfInput, year: nat): (f: YearFlow)
    requires Valid(inp)
    ensures f.year == year && f.revenue == Revenue(inp, year)
    ensures f.fcf == f.revenue * FcfMargin(inp)
    ensures f.pv * Pow(DiscountBase(inp), year) == f.fcf
    ensures f.pvPerShare * inp.sharesOutstanding == f.pv
  {
    var revenue := Revenue(inp, year);
    var ebit := revenue * (inp.ebitMargin / 100.0);
    var tax := ebit * (inp.taxRate / 100.0);
    var nopat := ebit - tax;
    var depreciation := revenue * (inp.depreciationPct / 100.0);
    var capex := revenue * (inp.capexPct / 100.0);
    var wcChange := revenue * (inp.wcChangePct / 100.0);
    var fcf := nopat + depreciation - capex - wcChange;
    PowNonZero(DiscountBase(inp), year);
    var pv := fcf / Pow(DiscountBase(inp), year);
    YearFlow(year, revenue, ebit, tax, nopat, depreciation, capex, wcChange, fcf, pv, pv / inp.sharesOutstanding)
  }

  /** The projection rows for years 1..y. */
  function Flows(inp: DcfInput): (fs: seq<YearFlow>)
    requires Valid(inp)
    ensures |fs| == inp.yYears
    ensures forall k :: 0 <= k < |fs| ==> fs[k] == Flow(inp, k + 1) && fs[k].year == k + 1
  {
    seq(inp.yYears, k requires 0 <= k < inp.yYears => Flow(inp, k + 1))
  }

  /** The yearly present values, `fcf_results`. */
  function PvSeries(inp: DcfInput): (pvs: seq<real>)
    requires Valid(inp)
    ensures |pvs| == inp.yYears
    ensures forall k :: 0 <= k < |pvs| ==> pvs[k] == Flow(inp, k + 1).pv
  {
    seq(inp.yYears, k requires 0 <= k < inp.yYears => Flow(inp, k + 1).pv)
  }

  /** The undiscounted Gordon value of the cash flows after the last projected year. */
  function TerminalValue(inp: DcfInput): real
    requires Valid(inp)
  {
    (Flow(inp, inp.yYears).fcf * (1.0 + inp.growthTerminal / 100.0))
    / ((inp.interestPct - inp.growthTerminal) / 100.0)
  }

  /**
   * The Gordon terminal value on the last year's cash flow, discounted over
   * the whole horizon.
   */
  function PvTerminal(inp: DcfInput): real
    requires Valid(inp)
  {
    PowNonZero(DiscountBase(inp), inp.yYears);
    TerminalValue(inp) / Pow(DiscountBase(inp), inp.yYears)
  }

  /**
   * The terminal value is the Gordon growth value of the last year's cash
   * flow, `TV * (r - g_t) == fcf_y * (1 + g_t)`, and discounting it over
   * the whole horizon gives back `TV` when compounded again.
   */
  lemma TerminalGordon(inp: DcfInput)
    requires Valid(inp)
    ensures TerminalValue(inp) * ((inp.interestPct - inp.growthTerminal) / 100.0)
            == Flow(inp, inp.yYears).fcf * (1.0 + inp.growthTerminal / 100.0)
    ensures PvTerminal(inp) * Pow(DiscountBase(inp), inp.yYears) == TerminalValue(inp)
  {
    PowNonZero(DiscountBase(inp), inp.yYears);
  }

  /** `sum(fcf_results) + pv_terminal`. */
  function EnterpriseValue(inp: DcfInput): real
    requires Valid(inp)
  {
    Sum(PvSeries(inp)) + PvTerminal(inp)
  }

  /** `x / shares`, defined for the non-zero share counts the source needs. */
  function PerShare(x: real, shares: real): (r: real)
    requires shares != 0.0
    ensures r * shares == x
  {
    x / shares
  }

  /** `part / whole * 100`. */
  function Weight(part: real, whole: real): (r: real)
    requires whole != 0.0
    ensures r * whole == part * 100.0
  {
    (part / whole) * 100.0
  }

  /** `sum(pvs[:x])` and `sum(pvs[x:])`: they account for the whole sum, whatever `x` is. */
  function PhaseSplit(pvs: seq<real>, x: int): (r: (real, real))
    ensures r.0 == Sum(PyTake(pvs, x)) && r.1 == Sum(PyDrop(pvs, x))
    ensures r.0 + r.1 == Sum(pvs)
  {
    PyTakeDrop(pvs, x);
    SumAppend(PyTake(pvs, x), PyDrop(pvs, x));
    (Sum(PyTake(pvs, x)), Sum(PyDrop(pvs, x)))
  }

  /** The valuation, unrounded. */
  datatype Valuation = Valuation(
    enterpriseValue: real, equityValue: real, fairValuePerShare: real,
    pvTerminal: real, terminalWeight: real, phase1Pv: real, phase2Pv: real)

  /**
   * The valuation before display rounding: the enterprise value is the
   * discounted cash flows plus the discounted terminal value; the equity
   * value deducts net debt; the per-share value divides by the share count.
   */
  function Calculate(inp: DcfInput): (v: Valuation)
    requires Valid(inp) && EnterpriseValue(inp) != 0.0
    ensures v.enterpriseValue == Sum(PvSeries(inp)) + v.pvTerminal && v.pvTerminal == PvTerminal(inp)
    ensures v.equityValue == v.enterpriseValue - inp.latestNetDebt
    ensures v.fairValuePerShare == PerShare(v.equityValue, inp.sharesOutstanding)
    ensures v.terminalWeight == Weight(v.pvTerminal, v.enterpriseValue)
    ensures v.phase1Pv == Sum(PyTake(PvSeries(inp), inp.xYears))
    ensures v.phase1Pv + v.phase2Pv == Sum(PvSeries(inp))
  {
    Summarise(PvSeries(inp), PvTerminal(inp), inp.latestNetDebt, inp.sharesOutstanding, inp.xYears)
  }

  /** The valuation figures from the discounted flows, whatever produced them. */
  function Summarise(pvs: seq<real>, pvTerminal: real, netDebt: real,
                     shares: real, x: int): (v: Valuation)
    requires shares != 0.0 && Sum(pvs) + pvTerminal != 0.0
    ensures v.pvTerminal == pvTerminal
    ensures v.enterpriseValue == Sum(pvs) + pvTerminal
    ensures v.equityValue == v.enterpriseValue - netDebt
    ensures v.fairValuePerShare == PerShare(v.equityValue, shares)
    ensures v.terminalWeight == Weight(pvTerminal, v.enterpriseValue)
    ensures v.phase1Pv == Sum(PyTake(pvs, x))
    ensures v.phase1Pv + v.phase2Pv == Sum(pvs)
  {
    var ev := Sum(pvs) + pvTerminal;
    var equity := ev - netDebt;
    var phases := PhaseSplit(pvs, x);
    Valuation(ev, equity, PerShare(equity, shares), pvTerminal, Weight(pvTerminal, ev), phases.0, phases.1)
  }

  /** A row of `fcf_table`, every amount rounded to 2 places. */
  datatype TableRow = TableRow(
    year: int, revenue: real, ebit: real, tax: real, nopat: real, depreciation: real,
    capex: real, wcChange: real, fcf: real, pvFcf: real, pvFcfPerShare: real)

  function RoundRow(rnd: RoundFn, f: YearFlow): TableRow {
    TableRow(f.year, rnd(f.revenue, 2), rnd(f.ebit, 2), rnd(f.tax, 2), rnd(f.nopat, 2),
             rnd(f.depreciation, 2), rnd(f.capex, 2), rnd(f.wcChange, 2), rnd(f.fcf, 2),
             rnd(f.pv, 2), rnd(f.pvPerShare, 2))
  }

  /** The response of the `/dcf` route. */
  datatype DcfReport = DcfReport(
    fcfTable: seq<TableRow>, fairValuePerShare: real, enterpriseValue: real, equityValue: real,
    latestNetDebt: real, sharesOutstanding: real, terminalValuePv: real, terminalWeight: real,
    phase1Pv: real, phase2Pv: real, fvPhase1PerShare: real, fvPhase2PerShare: real,
    terminalValuePerShare: real)

  /**
   * `calculate_dcf`: one table row per projected year, years 1..y in order,
   * and the valuation figures rounded for display.
   */
  function CalculateDcf(rnd: RoundFn, inp: DcfInput): (r: DcfReport)
    requires Valid(inp) && EnterpriseValue(inp) != 0.0
    ensures |r.fcfTable| == inp.yYears
    ensures forall k :: 0 <= k < |r.fcfTable| ==> r.fcfTable[k].year == k + 1
    ensures forall k :: 0 <= k < |r.fcfTable| ==> r.fcfTable[k].revenue == rnd(Revenue(inp, k + 1), 2)
    ensures r.fairValuePerShare == rnd(Calculate(inp).fairValuePerShare, 2)
    ensures r.enterpriseValue == rnd(EnterpriseValue(inp), 2)
  {
    var v := Calculate(inp);
    var flows := Flows(inp);
    DcfReport(
      seq(|flows|, k requires 0 <= k < |flows| => RoundRow(rnd, flows[k])),
      rnd(v.fairValuePerShare, 2), rnd(v.enterpriseValue, 2), rnd(v.equityValue, 2),
      rnd(inp.latestNetDebt, 2), rnd(inp.sharesOutstanding, 2), rnd(v.pvTerminal, 2),
      rnd(v.terminalWeight, 2), rnd(v.phase1Pv, 2), rnd(v.phase2Pv, 2),
      rnd(v.phase1Pv / inp.sharesOutstanding, 2), rnd(v.phase2Pv / inp.sharesOutstanding, 2),
      rnd(v.pvTerminal / inp.sharesOutstanding, 2))
  }
}
