/**
 * The 5x5 DCF sensitivity grid (backend/routers/sensitivity.py): an inner
 * DCF re-run over EBIT margins and growth rates centred on the inputs, plus
 * the presence check pydantic makes before the route runs.
 *
 * The inner DCF is written out independently, as in the source, and proved
 * to agree with the `/dcf` model when `growth_x` and `growth_y` are both the
 * perturbed growth.
 */
module Sensitivity {
  import opened Wrappers
  import opened Numeric
  import Dcf

  datatype SensitivityInput = SensitivityInput(
    baseRevenue: real, netDebt: real, sharesOutstanding: real,
    depreciationPct: real, capexPct: real, wcChangePct: real, taxRate: real,
    interestPct: real, xYears: int, yYears: int, growthY: real, ebitMargin: real,
    growthTerminal: real)

  /** The conditions under which the inner DCF's divisions do not raise. */
  predicate Valid(inp: SensitivityInput) {
    inp.yYears >= 1 && inp.sharesOutstanding != 0.0
    && inp.interestPct != -100.0 && inp.interestPct != inp.growthTerminal
  }

  /**
   * The inner growth rule: the perturbed growth `g` in every year before the
   * last one (both the explicit and the fade branch use it), the terminal
   * growth only in year `y_years` when that year is past `x_years`.
   */
  function GrowthPct(inp: SensitivityInput, g: real, year: int): real {
    if year <= inp.xYears then g
    else if year < inp.yYears then g
    else inp.growthTerminal
  }

  function Revenue(inp: SensitivityInput, g: real, year: nat): real {
    if year == 0 then inp.baseRevenue
    else Revenue(inp, g, year - 1) * (1.0 + GrowthPct(inp, g, year) / 100.0)
  }

  /** The inner free cash flow of year `year` at EBIT margin `m`. */
  function Fcf(inp: SensitivityInput, m: real, g: real, year: nat): real {
    var revenue := Revenue(inp, g, year);
    var ebit := revenue * (m / 100.0);
    var tax := ebit * (inp.taxRate / 100.0);
    var nopat := ebit - tax;
    var depreciation := revenue * (inp.depreciationPct / 100.0);
    var capex := revenue * (inp.capexPct / 100.0);
    var wcChange := revenue * (inp.wcChangePct / 100.0);
    nopat + depreciation - capex - wcChange
  }

  function Discount(inp: SensitivityInput, year: nat): (d: real)
    requires Valid(inp)
    ensures d != 0.0
  {
    PowNonZero(1.0 + inp.interestPct / 100.0, year);
    Pow(1.0 + inp.interestPct / 100.0, year)
  }

  function PvSeries(inp: SensitivityInput, m: real, g: real): (pvs: seq<real>)
    requires Valid(inp)
    ensures |pvs| == inp.yYears
  {
    seq(inp.yYears, k requires 0 <= k < inp.yYears => Fcf(inp, m, g, k + 1) / Discount(inp, k + 1))
  }

  /** `fcf_y * (1 + g_t) / (r - g_t)`, the inner terminal value. */
  function TerminalValue(inp: SensitivityInput, m: real, g: real): real
    requires Valid(inp)
  {
    (Fcf(inp, m, g, inp.yYears) * (1.0 + inp.growthTerminal / 100.0))
    / ((inp.interestPct - inp.growthTerminal) / 100.0)
  }

  function EnterpriseValue(inp: SensitivityInput, m: real, g: real): real
    requires Valid(inp)
  {
    Sum(PvSeries(inp, m, g)) + TerminalValue(inp, m, g) / Discount(inp, inp.yYears)
  }

  /** One grid cell: `round((EV - net_debt) / shares, 2)` at margin `m` and growth `g`. */
  function FairValue(rnd: RoundFn, inp: SensitivityInput, m: real, g: real): real
    requires Valid(inp)
  {
    rnd((EnterpriseValue(inp, m, g) - inp.netDebt) / inp.sharesOutstanding, 2)
  }

  /** The `/dcf` input the inner DCF corresponds to: both growth phases at `g`, margin `m`. */
  function AsDcfInput(inp: SensitivityInput, m: real, g: real): (d: Dcf.DcfInput)
    ensures Valid(inp) ==> Dcf.Valid(d)
  {
    Dcf.DcfInput(inp.baseRevenue, inp.netDebt, inp.sharesOutstanding, m,
                 inp.depreciationPct, inp.capexPct, inp.wcChangePct, inp.taxRate, inp.interestPct,
                 inp.xYears, g, inp.yYears, g, inp.growthTerminal)
  }

  /** The inner growth rule is the `/dcf` rule with `growth_x == growth_y == g`. */
  lemma GrowthAgrees(inp: SensitivityInput, m: real, g: real, year: int)
    ensures GrowthPct(inp, g, year) == Dcf.GrowthPct(AsDcfInput(inp, m, g), year)
  {
  }

  lemma {:induction false} RevenueAgrees(inp: SensitivityInput, m: real, g: real, year: nat)
    ensures Revenue(inp, g, year) == Dcf.Revenue(AsDcfInput(inp, m, g), year)
  {
    if year > 0 {
      RevenueAgrees(inp, m, g, year - 1);
      GrowthAgrees(inp, m, g, year);
    }
  }

  lemma FcfAgrees(inp: SensitivityInput, m: real, g: real, year: nat)
    requires Valid(inp)
    ensures Fcf(inp, m, g, year) == Dcf.Flow(AsDcfInput(inp, m, g), year).fcf
    ensures Fcf(inp, m, g, year) / Discount(inp, year) == Dcf.Flow(AsDcfInput(inp, m, g), year).pv
  {
    RevenueAgrees(inp, m, g, year);
  }

  /**
   * The inner enterprise value equals the `/dcf` enterprise value for the
   * same margin when both growth phases use the perturbed growth.
   */
  lemma EnterpriseValueAgrees(inp: SensitivityInput, m: real, g: real)
    requires Valid(inp)
    ensures EnterpriseValue(inp, m, g) == Dcf.EnterpriseValue(AsDcfInput(inp, m, g))
  {
    var d := AsDcfInput(inp, m, g);
    var y := inp.yYears;
    assert d.yYears == y && d.interestPct == inp.interestPct && d.growthTerminal == inp.growthTerminal;
    forall k | 0 <= k < inp.yYears
      ensures PvSeries(inp, m, g)[k] == Dcf.PvSeries(d)[k]
    {
      FcfAgrees(inp, m, g, k + 1);
    }
    assert PvSeries(inp, m, g) == Dcf.PvSeries(d);
    FcfAgrees(inp, m, g, y);
    assert Discount(inp, y) == Pow(Dcf.DiscountBase(d), y);
    assert TerminalValue(inp, m, g) == Dcf.TerminalValue(d);
  }

  /** The five axis values `base + 4i` for `i` in -2..2. */
  function Axis(base: real): (a: seq<real>)
    ensures |a| == 5 && a[2] == base
    ensures forall i :: 0 <= i < 5 ==> a[i] == base + 4.0 * (i - 2) as real
    ensures forall i, j :: 0 <= i < j < 5 ==> a[i] < a[j]
  {
    seq(5, i requires 0 <= i < 5 => base + (i - 2) as real * 4.0)
  }

  datatype Grid = Grid(ebitValues: seq<real>, growthValues: seq<real>, fairValues: seq<seq<real>>)

  /**
   * `dcf_sensitivity`: rows follow the EBIT axis, columns the growth axis,
   * and every cell is the inner DCF at that pair.
   */
  function DcfSensitivity(rnd: RoundFn, inp: SensitivityInput): (r: Grid)
    requires Valid(inp)
    ensures r.ebitValues == Axis(inp.ebitMargin) && r.growthValues == Axis(inp.growthY)
    ensures |r.fairValues| == 5
    ensures forall i :: 0 <= i < 5 ==> |r.fairValues[i]| == 5
    ensures forall i, j :: 0 <= i < 5 && 0 <= j < 5 ==>
      r.fairValues[i][j] == FairValue(rnd, inp, r.ebitValues[i], r.growthValues[j])
  {
    var ebits := Axis(inp.ebitMargin);
    var growths := Axis(inp.growthY);
    Grid(ebits, growths,
         seq(5, i requires 0 <= i < 5 =>
           seq(5, j requires 0 <= j < 5 => FairValue(rnd, inp, ebits[i], growths[j]))))
  }

  /**
   * The centre cell is the `/dcf` valuation at the base margin with both
   * growth phases at `growth_y`, rounded.
   */
  lemma CentreIsBaseDcf(rnd: RoundFn, inp: SensitivityInput)
    requires Valid(inp)
    ensures DcfSensitivity(rnd, inp).fairValues[2][2] ==
      rnd((Dcf.EnterpriseValue(AsDcfInput(inp, inp.ebitMargin, inp.growthY)) - inp.netDebt) / inp.sharesOutstanding, 2)
  {
    EnterpriseValueAgrees(inp, inp.ebitMargin, inp.growthY);
  }

  /** The payload keys the valuation models read (one constructor per key name). */
  datatype Field =
    | BaseRevenue | NetDebt | LatestNetDebt | SharesOutstanding | EbitMargin
    | DepreciationPct | CapexPct | WcChangePct | TaxRate | InterestPct
    | XYears | GrowthX | YYears | GrowthY | GrowthTerminal
    | CurrentPrice | BaseYear | InterestExpPct

  /** The fields `SensitivityInput` declares (`net_debt`, not `latest_net_debt`). */
  const SensitivityFields: set<Field> := {
    BaseRevenue, NetDebt, SharesOutstanding, DepreciationPct, CapexPct, WcChangePct,
    TaxRate, InterestPct, XYears, YYears, GrowthY, EbitMargin, GrowthTerminal}

  /** The fields `DCFInput` declares (`latest_net_debt`, not `net_debt`). */
  const DcfFields: set<Field> := {
    BaseRevenue, LatestNetDebt, SharesOutstanding, EbitMargin, DepreciationPct, CapexPct,
    WcChangePct, TaxRate, InterestPct, XYears, GrowthX, YYears, GrowthY, GrowthTerminal}

  /** The declared fields a payload lacks. */
  function Missing(fields: set<Field>, payload: map<Field, real>): (r: set<Field>)
    ensures forall f :: f in r <==> f in fields && f !in payload
  {
    set f | f in fields && f !in payload
  }

  predicate Integral(x: real) {
    x == x.Floor as real
  }

  /**
   * Building `SensitivityInput(**payload)`: pydantic reports every missing
   * field; extra keys are ignored; the two year counts must be integral.
   * Payload values are the numbers the route passes (coercion of other
   * value types is not modelled).
   */
  function ValidateSensitivity(payload: map<Field, real>): (r: Result<SensitivityInput, set<Field>>)
    ensures r.Success? <==> SensitivityFields <= payload.Keys
                            && Integral(payload[XYears]) && Integral(payload[YYears])
    ensures r.Success? ==> r.value.netDebt == payload[NetDebt] && r.value.baseRevenue == payload[BaseRevenue]
    ensures !(SensitivityFields <= payload.Keys) ==> r == Failure(Missing(SensitivityFields, payload))
  {
    var missing := Missing(SensitivityFields, payload);
    if missing != {} then
      assert !(SensitivityFields <= payload.Keys) by {
        var f :| f in missing;
      }
      Failure(missing)
    else if !Integral(payload[XYears]) then Failure({XYears})
    else if !Integral(payload[YYears]) then Failure({YYears})
    else Success(SensitivityInput(
      payload[BaseRevenue], payload[NetDebt], payload[SharesOutstanding],
      payload[DepreciationPct], payload[CapexPct], payload[WcChangePct],
      payload[TaxRate], payload[InterestPct], payload[XYears].Floor,
      payload[YYears].Floor, payload[GrowthY], payload[EbitMargin],
      payload[GrowthTerminal]))
  }

  /** The keys of the assumptions dict the upload route builds and hands to both models. */
  const UploadAssumptionKeys: set<Field> := {
    CurrentPrice, BaseRevenue, LatestNetDebt, SharesOutstanding, EbitMargin,
    DepreciationPct, CapexPct, WcChangePct, TaxRate, InterestPct, XYears,
    GrowthX, YYears, GrowthY, GrowthTerminal, BaseYear, InterestExpPct}

  /**
   * The upload route's assumptions carry the DCF's `latest_net_debt` but no
   * `net_debt`, so the route's own `SensitivityInput(**assumptions)` always
   * fails, naming exactly that field, while every `/dcf` field is present.
   * The route's `except` turns that failure into a 400 reply for every upload.
   */
  lemma UploadAssumptionsRejected(payload: map<Field, real>)
    requires payload.Keys == UploadAssumptionKeys
    ensures DcfFields <= payload.Keys
    ensures ValidateSensitivity(payload) == Failure({NetDebt})
  {
    assert NetDebt !in payload;
    assert Missing(SensitivityFields, payload) == {NetDebt};
  }

  /**
   * The evidently intended hand-over: the sensitivity payload takes its
   * `net_debt` from the DCF's `latest_net_debt`.
   */
  function SensitivityPayload(assumptions: map<Field, real>): (p: map<Field, real>)
    requires LatestNetDebt in assumptions
    ensures p.Keys == assumptions.Keys + {NetDebt}
    ensures p[NetDebt] == assumptions[LatestNetDebt]
    ensures forall f :: f in assumptions && f != NetDebt ==> p[f] == assumptions[f]
  {
    assumptions[NetDebt := assumptions[LatestNetDebt]]
  }

  /**
   * With the hand-over, the upload route's assumptions validate, and the
   * grid is computed against the same net debt as the DCF.
   */
  lemma CorrectedPayloadAccepted(assumptions: map<Field, real>)
    requires assumptions.Keys == UploadAssumptionKeys
    requires Integral(assumptions[XYears]) && Integral(assumptions[YYears])
    ensures ValidateSensitivity(SensitivityPayload(assumptions)).Success?
    ensures ValidateSensitivity(SensitivityPayload(assumptions)).value.netDebt == assumptions[LatestNetDebt]
  {
    var p := SensitivityPayload(assumptions);
    assert SensitivityFields <= p.Keys;
  }
}
