/**
 * The executive-summary service of the report page
 * (frontend/src/lib/executiveSummaryService.ts): it reads loosely typed
 * metric and valuation objects, picks a primary fair value, derives the
 * valuation gap and a recommendation, scores financial strength, writes
 * highlight sentences, and validates or re-formats a summary for the PDF.
 *
 * Inputs are JavaScript values (`JsVal`); `parseFloat`, `String(v)`,
 * ToNumber and `toFixed(1)` are parameters.
 */
module ExecutiveSummary {
  import opened Numeric
  import opened Text
  import opened Wrappers
  import opened JsModel

  /** `x.toFixed(1)`. */
  type Fixed1Fn = real -> string

  /** The number `safe` reads from a value: NaN stands for "use the fallback". */
  function NumberIn(parse: ParseFloatJs, show: ShowFn, v: JsVal): Float {
    match v
    case Undefined => NaN
    case Null => NaN
    case Num(x) => x
    case _ => parse(ToJsString(show, v))
  }

  /** `safe(value, fallback)`: the finite number the value denotes, else the fallback. */
  function Safe(parse: ParseFloatJs, show: ShowFn, v: JsVal, fallback: real): (r: real)
    ensures v.Undefined? || v.Null? ==> r == fallback
    ensures v.Num? && v.x.Finite? ==> r == v.x.v
    ensures r != fallback ==> NumberIn(parse, show, v) == Finite(r)
    ensures NumberIn(parse, show, v).Finite? ==> r == NumberIn(parse, show, v).v
  {
    var n := NumberIn(parse, show, v);
    if n.Finite? then n.v else fallback
  }

  /** `m?.k1 || m?.k2 || ...`: the first truthy property, else the last one read. */
  function Pick(m: JsVal, keys: seq<string>): (r: JsVal)
    requires |keys| >= 1
    ensures Truthy(r) <==> exists i :: 0 <= i < |keys| && Truthy(Get(m, keys[i]))
    ensures Truthy(r) ==> exists i :: (0 <= i < |keys| && r == Get(m, keys[i])
                                       && forall j :: 0 <= j < i ==> !Truthy(Get(m, keys[j])))
    ensures !Truthy(r) ==> r == Get(m, keys[|keys| - 1])
  {
    if |keys| == 1 then Get(m, keys[0])
    else
      var rest := Pick(m, keys[1..]);
      assert forall i :: 1 <= i < |keys| ==> keys[i] == keys[1..][i - 1];
      if Truthy(Get(m, keys[0])) then Get(m, keys[0])
      else
        assert Truthy(rest) ==> exists i :: (1 <= i < |keys| && rest == Get(m, keys[i])
                                             && forall j :: 0 <= j < i ==> !Truthy(Get(m, keys[j]))) by {
          if Truthy(rest) {
            var i :| 0 <= i < |keys[1..]| && rest == Get(m, keys[1..][i])
                     && forall j :: 0 <= j < i ==> !Truthy(Get(m, keys[1..][j]));
            assert forall j :: 0 <= j < i + 1 ==> !Truthy(Get(m, keys[j])) by {
              forall j | 0 <= j < i + 1 ensures !Truthy(Get(m, keys[j])) {
                if j > 0 { assert keys[j] == keys[1..][j - 1]; }
              }
            }
          }
        }
        rest
  }

  /** Property `keys[i]` is the first truthy one of `m`. */
  predicate FirstTruthy(m: JsVal, keys: seq<string>, i: int) {
    0 <= i < |keys| && Truthy(Get(m, keys[i])) && forall j :: 0 <= j < i ==> !Truthy(Get(m, keys[j]))
  }

  lemma FirstTruthyUnique(m: JsVal, keys: seq<string>, i: int, k: int)
    requires FirstTruthy(m, keys, i) && FirstTruthy(m, keys, k)
    ensures i == k
  {
  }

  /** The value `Pick` returns is the first truthy property whenever there is one. */
  lemma PickIsFirstTruthy(m: JsVal, keys: seq<string>)
    requires |keys| >= 1
    ensures forall i :: FirstTruthy(m, keys, i) ==> Pick(m, keys) == Get(m, keys[i])
  {
    var p := Pick(m, keys);
    forall i | FirstTruthy(m, keys, i) ensures p == Get(m, keys[i]) {
      assert Truthy(p);
      var k :| 0 <= k < |keys| && p == Get(m, keys[k]) && forall j :: 0 <= j < k ==> !Truthy(Get(m, keys[j]));
      FirstTruthyUnique(m, keys, i, k);
    }
  }

  /**
   * `safe(m?.k1 || m?.k2 || ..., 0)`: the number behind the first truthy
   * property, 0 when that denotes no finite number; a non-zero result
   * always comes from a property read before any truthy one.
   */
  function SafePick(parse: ParseFloatJs, show: ShowFn, m: JsVal, keys: seq<string>): (r: real)
    requires |keys| >= 1
    ensures forall i :: FirstTruthy(m, keys, i) ==>
      r == (if NumberIn(parse, show, Get(m, keys[i])).Finite? then NumberIn(parse, show, Get(m, keys[i])).v else 0.0)
    ensures r != 0.0 ==> exists i :: 0 <= i < |keys| && (forall j :: 0 <= j < i ==> !Truthy(Get(m, keys[j])))
                                     && NumberIn(parse, show, Get(m, keys[i])) == Finite(r)
    ensures (forall i :: 0 <= i < |keys| ==> !Truthy(Get(m, keys[i])))
            && (Get(m, keys[|keys| - 1]).Undefined? || Get(m, keys[|keys| - 1]).Null?)
            ==> r == 0.0
  {
    PickIsFirstTruthy(m, keys);
    Safe(parse, show, Pick(m, keys), 0.0)
  }

  /**
   * The primary fair value as written: DCF when positive, else EPS; the
   * second statement then swaps in EPS when the choice is 0 and EPS is
   * positive.
   */
  function PrimaryFairValue(dcf: real, eps: real): (r: real)
    ensures r == (if dcf > 0.0 then dcf else eps)
  {
    var primary := if dcf > 0.0 then dcf else eps;
    if primary == 0.0 && eps > 0.0 then eps else primary
  }

  /** `valuation_gap_pct`: the upside of the fair value over the price, in percent. */
  function ValuationGap(price: real, fairValue: real): (r: real)
    ensures !(price > 0.0 && fairValue > 0.0) ==> r == 0.0
    ensures price > 0.0 && fairValue > 0.0 ==> r * price == (fairValue - price) * 100.0
    ensures r > 0.0 <==> price > 0.0 && fairValue > price
    ensures r < 0.0 <==> price > 0.0 && 0.0 < fairValue < price
    ensures r >= -100.0
  {
    if price > 0.0 && fairValue > 0.0 then (fairValue - price) / price * 100.0 else 0.0
  }

  datatype Recommendation = StrongBuy | Buy | Hold | Sell | StrongSell

  function RecommendationName(r: Recommendation): string {
    match r
    case StrongBuy => "STRONG BUY"
    case Buy => "BUY"
    case Hold => "HOLD"
    case Sell => "SELL"
    case StrongSell => "STRONG SELL"
  }

  /** The recommendation's place on the scale, from strong sell (0) to strong buy (4). */
  function Rank(r: Recommendation): int {
    match r
    case StrongSell => 0
    case Sell => 1
    case Hold => 2
    case Buy => 3
    case StrongBuy => 4
  }

  /** `investment_recommendation` from the gap. */
  function Recommend(gap: real): (r: Recommendation)
    ensures r == StrongBuy <==> gap > 25.0
    ensures r == Buy <==> 10.0 < gap <= 25.0
    ensures r == Hold <==> -10.0 <= gap <= 10.0
    ensures r == Sell <==> -25.0 <= gap < -10.0
    ensures r == StrongSell <==> gap < -25.0
  {
    if gap > 25.0 then StrongBuy
    else if gap > 10.0 then Buy
    else if gap < -25.0 then StrongSell
    else if gap < -10.0 then Sell
    else Hold
  }

  /** A larger gap never gives a weaker recommendation. */
  lemma RecommendMonotone(g1: real, g2: real)
    requires g1 <= g2
    ensures Rank(Recommend(g1)) <= Rank(Recommend(g2))
  {
  }

  /** The liquidity, quick-ratio, debt and return-on-equity adjustments, in the order the source applies them. */
  function CurrentRatioPoints(cr: real): int {
    if cr >= 2.5 then 20 else if cr >= 2.0 then 15 else if cr >= 1.5 then 10 else if cr < 1.0 then -15 else 0
  }

  function QuickRatioPoints(qr: real): int {
    if qr >= 1.5 then 15 else if qr >= 1.0 then 10 else if qr < 0.5 then -10 else 0
  }

  function DebtPoints(de: real): int {
    if de < 0.3 then 15 else if de < 0.5 then 10 else if de < 1.0 then 5 else if de > 2.0 then -15 else 0
  }

  function RoePoints(roe: real): int {
    if roe > 20.0 then 10 else if roe > 15.0 then 5 else if roe < 5.0 then -10 else 0
  }

  /** The score before clamping: 50 plus the four adjustments. */
  function RawStrengthScore(cr: real, qr: real, de: real, roe: real): (s: int)
    ensures 0 <= s <= 110
  {
    50 + CurrentRatioPoints(cr) + QuickRatioPoints(qr) + DebtPoints(de) + RoePoints(roe)
  }

  /** `financial_strength_score`: the raw score clamped to [0, 100]; only the upper clamp can bind. */
  function StrengthScore(cr: real, qr: real, de: real, roe: real): (s: int)
    ensures 0 <= s <= 100
    ensures s == if RawStrengthScore(cr, qr, de, roe) > 100 then 100 else RawStrengthScore(cr, qr, de, roe)
  {
    var raw := RawStrengthScore(cr, qr, de, roe);
    var low := if raw > 0 then raw else 0;
    if low < 100 then low else 100
  }

  /**
   * Better ratios never lower the score: higher current and quick ratios,
   * lower debt-to-equity and higher return on equity.
   */
  lemma StrengthMonotone(cr1: real, qr1: real, de1: real, roe1: real, cr2: real, qr2: real, de2: real, roe2: real)
    requires cr1 <= cr2 && qr1 <= qr2 && de1 >= de2 && roe1 <= roe2
    ensures StrengthScore(cr1, qr1, de1, roe1) <= StrengthScore(cr2, qr2, de2, roe2)
  {
    assert CurrentRatioPoints(cr1) <= CurrentRatioPoints(cr2);
    assert QuickRatioPoints(qr1) <= QuickRatioPoints(qr2);
    assert DebtPoints(de1) <= DebtPoints(de2);
    assert RoePoints(roe1) <= RoePoints(roe2);
  }

  datatype Highlights = Highlights(strengths: seq<string>, risks: seq<string>, opportunities: seq<string>)

  /** The figures the highlight rules read. */
  datatype HighlightInputs = HighlightInputs(
    gap: real, roe: real, netMargin: real, score: int, currentRatio: real,
    debtToEquity: real, revenueCagr: real, projectedRevenueGrowth: real, marketCap: real)

  function If(c: bool, s: string): (r: seq<string>)
    ensures |r| == (if c then 1 else 0)
  {
    if c then [s] else []
  }

  /** No strength rule fires. */
  predicate NoStrengthRule(h: HighlightInputs) {
    h.gap <= 10.0 && h.roe <= 15.0 && h.netMargin <= 15.0 && h.score <= 60 && h.currentRatio <= 2.5
    && h.debtToEquity >= 0.3 && h.revenueCagr <= 10.0 && h.marketCap <= 50000000000.0
  }

  /** No risk rule fires. */
  predicate NoRiskRule(h: HighlightInputs) {
    h.gap >= -20.0 && h.roe >= 5.0 && h.netMargin >= 3.0 && h.score >= 40 && h.currentRatio >= 1.2
    && h.debtToEquity <= 1.5 && h.revenueCagr >= 0.0 && h.marketCap >= 5000000000.0
  }

  /** No opportunity rule fires. */
  predicate NoOpportunityRule(h: HighlightInputs) {
    h.gap <= 20.0 && h.score <= 80 && h.debtToEquity >= 0.3
    && !(h.projectedRevenueGrowth > h.revenueCagr && h.projectedRevenueGrowth > 5.0) && h.marketCap >= 5000000000.0
  }

  /** One sentence when the first condition holds, another when only the second does, else none. */
  function Tiered(c1: bool, s1: string, c2: bool, s2: string): (r: seq<string>)
    ensures |r| == (if c1 || c2 then 1 else 0)
  {
    if c1 then [s1] else If(c2, s2)
  }

  function B(c: bool): int { if c then 1 else 0 }

  /** How many strength rules fire. */
  function StrengthCount(h: HighlightInputs): (c: int)
    ensures 0 <= c <= 8
    ensures c == 0 <==> NoStrengthRule(h)
  {
    B(h.gap > 10.0) + B(h.roe > 15.0) + B(h.netMargin > 15.0) + B(h.score > 60)
                   + B(h.currentRatio > 2.5) + B(h.debtToEquity < 0.3) + B(h.revenueCagr > 10.0)
                   + B(h.marketCap > 50000000000.0)
  }

  // The fixed parts of the highlight sentences, as the source spells them.
  const DeepDiscountText: string := "Stock appears significantly undervalued by "
  const ModerateDiscountText: string := "Stock shows moderate undervaluation of "
  const ExceptionalRoeText: string := "Exceptional return on equity of "
  const StrongRoeText: string := "Strong return on equity of "
  const HighMarginText: string := "High profit margins at "
  const ExcellentScoreText: string := "Excellent financial health score of "
  const GoodScoreText: string := "Good financial health score of "
  const HighLiquidityText: string := "Excellent liquidity with current ratio of "
  const LowDebtStrength: string := "Conservative debt management with low debt-to-equity ratio"
  const ExceptionalGrowthText: string := "Exceptional revenue growth of "
  const SolidGrowthText: string := "Solid revenue growth of "
  const LargeCapStrength: string := "Large-cap stability with established market position"
  const OvervaluedText: string := "Stock appears overvalued by "
  const LowRoeText: string := "Low return on equity of "
  const ThinMarginText: string := "Thin profit margins at "
  const WeakScoreText: string := "Weak financial health score of "
  const LowLiquidityText: string := "Potential liquidity concerns with current ratio of "
  const HighDebtText: string := "High debt burden with debt-to-equity ratio of "
  const DecliningRevenueText: string := "Declining revenue trend with "
  const SmallCapRisk: string := "Higher volatility typical of smaller companies"
  const DiscountOpportunity: string := "Strong potential for price appreciation based on fair value analysis"
  const BalanceSheetOpportunity: string := "Strong balance sheet enables strategic investments and expansion"
  const LowDebtOpportunity: string := "Low debt levels provide room for strategic financing"
  const AcceleratingGrowthOpportunity: string := "Accelerating revenue growth projected for future periods"
  const SmallCapOpportunity: string := "Small-cap growth potential with room for expansion"

  /** The strength sentences, in push order. */
  function Strengths(fixed1: Fixed1Fn, h: HighlightInputs): (r: seq<string>)
    ensures |r| == StrengthCount(h)
  {
    Tiered(h.gap > 20.0, DeepDiscountText + fixed1(h.gap) + "%",
           h.gap > 10.0, ModerateDiscountText + fixed1(h.gap) + "%")
    + Tiered(h.roe > 20.0, ExceptionalRoeText + fixed1(h.roe) + "%",
             h.roe > 15.0, StrongRoeText + fixed1(h.roe) + "%")
    + If(h.netMargin > 15.0, HighMarginText + fixed1(h.netMargin) + "%")
    + Tiered(h.score > 80, ExcellentScoreText + IntToString(h.score) + "/100",
             h.score > 60, GoodScoreText + IntToString(h.score) + "/100")
    + If(h.currentRatio > 2.5, HighLiquidityText + fixed1(h.currentRatio))
    + If(h.debtToEquity < 0.3, LowDebtStrength)
    + Tiered(h.revenueCagr > 20.0, ExceptionalGrowthText + fixed1(h.revenueCagr) + "% CAGR",
             h.revenueCagr > 10.0, SolidGrowthText + fixed1(h.revenueCagr) + "% CAGR")
    + If(h.marketCap > 50000000000.0, LargeCapStrength)
  }

  /** How many risk rules fire. */
  function RiskCount(h: HighlightInputs): (c: int)
    ensures 0 <= c <= 8
    ensures c == 0 <==> NoRiskRule(h)
  {
    B(h.gap < -20.0) + B(h.roe < 5.0) + B(h.netMargin < 3.0) + B(h.score < 40)
                   + B(h.currentRatio < 1.2) + B(h.debtToEquity > 1.5) + B(h.revenueCagr < 0.0)
                   + B(h.marketCap < 5000000000.0)
  }

  /**
   * The risk sentences, in push order. Each risk sits in an `else if` after
   * a strength test; the risk's own test already excludes that strength
   * case, so it is written alone here.
   */
  function Risks(fixed1: Fixed1Fn, h: HighlightInputs): (r: seq<string>)
    ensures |r| == RiskCount(h)
  {
    If(h.gap < -20.0, OvervaluedText + fixed1(Abs(h.gap)) + "%")
    + If(h.roe < 5.0, LowRoeText + fixed1(h.roe) + "%")
    + If(h.netMargin < 3.0, ThinMarginText + fixed1(h.netMargin) + "%")
    + If(h.score < 40, WeakScoreText + IntToString(h.score) + "/100")
    + If(h.currentRatio < 1.2, LowLiquidityText + fixed1(h.currentRatio))
    + If(h.debtToEquity > 1.5, HighDebtText + fixed1(h.debtToEquity))
    + If(h.revenueCagr < 0.0, DecliningRevenueText + fixed1(h.revenueCagr) + "% CAGR")
    + If(h.marketCap < 5000000000.0, SmallCapRisk)
  }

  /** How many opportunity rules fire. */
  function OpportunityCount(h: HighlightInputs): (c: int)
    ensures 0 <= c <= 5
    ensures c == 0 <==> NoOpportunityRule(h)
  {
    B(h.gap > 20.0) + B(h.score > 80) + B(h.debtToEquity < 0.3)
                   + B(h.projectedRevenueGrowth > h.revenueCagr && h.projectedRevenueGrowth > 5.0)
                   + B(h.marketCap < 5000000000.0)
  }

  /** The opportunity sentences, in push order. */
  function Opportunities(h: HighlightInputs): (r: seq<string>)
    ensures |r| == OpportunityCount(h)
  {
    If(h.gap > 20.0, DiscountOpportunity)
    + If(h.score > 80, BalanceSheetOpportunity)
    + If(h.debtToEquity < 0.3, LowDebtOpportunity)
    + If(h.projectedRevenueGrowth > h.revenueCagr && h.projectedRevenueGrowth > 5.0, AcceleratingGrowthOpportunity)
    + If(h.marketCap < 5000000000.0, SmallCapOpportunity)
  }

  /** The sentences the rules push, before the defaults and the cuts. */
  function RawHighlights(fixed1: Fixed1Fn, h: HighlightInputs): Highlights {
    Highlights(Strengths(fixed1, h), Risks(fixed1, h), Opportunities(h))
  }

  const DefaultStrength: string := "Company maintains operational stability in current market conditions"
  const DefaultRisk: string := "Market volatility and economic conditions may impact performance"
  const DefaultOpportunity: string := "Potential for operational efficiency improvements and market expansion"

  /** An empty list gets its default sentence; then the list is cut to `n`. */
  function FillAndCut(xs: seq<string>, default: string, n: nat): (r: seq<string>)
    requires n >= 1
    ensures 1 <= |r| <= n
    ensures xs == [] ==> r == [default]
    ensures xs != [] ==> r == xs[..MinNat(n, |xs|)]
  {
    var filled := if xs == [] then [default] else xs;
    PyTake(filled, n)
  }

  /** `generateKeyHighlights`. */
  function KeyHighlights(fixed1: Fixed1Fn, h: HighlightInputs): (r: Highlights)
    ensures 1 <= |r.strengths| <= 5 && 1 <= |r.risks| <= 4 && 1 <= |r.opportunities| <= 3
    ensures NoStrengthRule(h) <==> r.strengths == [DefaultStrength]
                                   && RawHighlights(fixed1, h).strengths == []
    ensures !NoStrengthRule(h)
            ==> r.strengths == RawHighlights(fixed1, h).strengths[..MinNat(5, |RawHighlights(fixed1, h).strengths|)]
    ensures !NoRiskRule(h)
            ==> r.risks == RawHighlights(fixed1, h).risks[..MinNat(4, |RawHighlights(fixed1, h).risks|)]
    ensures !NoOpportunityRule(h)
            ==> r.opportunities
                == RawHighlights(fixed1, h).opportunities[..MinNat(3, |RawHighlights(fixed1, h).opportunities|)]
    ensures NoRiskRule(h) ==> r.risks == [DefaultRisk]
    ensures NoOpportunityRule(h) ==> r.opportunities == [DefaultOpportunity]
  {
    var raw := RawHighlights(fixed1, h);
    Highlights(
      FillAndCut(raw.strengths, DefaultStrength, 5),
      FillAndCut(raw.risks, DefaultRisk, 4),
      FillAndCut(raw.opportunities, DefaultOpportunity, 3))
  }

  datatype CompanyOverview = CompanyOverview(
    currentPrice: real, marketCap: real, sector: string, industry: string, description: string)

  datatype ValuationSummary = ValuationSummary(
    dcfFairValue: real, epsFairValue: real, valuationGapPct: real, recommendation: Recommendation,
    phase1Pct: real, phase2Pct: real, terminalPct: real)

  datatype GrowthMetrics = GrowthMetrics(
    revenueCagr3y: real, epsCagr3y: real, projectedRevenueGrowth: real, projectedEpsGrowth: real)

  datatype Profitability = Profitability(
    netMargin: real, grossMargin: real, operatingMargin: real, roe: real, roa: real)

  datatype FinancialHealth = FinancialHealth(
    debtToEquity: real, currentRatio: real, quickRatio: real, strengthScore: int)

  datatype Summary = Summary(
    company: CompanyOverview, valuation: ValuationSummary, growth: GrowthMetrics,
    profitability: Profitability, health: FinancialHealth, highlights: Highlights)

  /** The JavaScript helpers the calculation calls. */
  datatype Env = Env(parse: ParseFloatJs, show: ShowFn, fixed1: Fixed1Fn)

  const PriceKeys: seq<string> := ["current_price", "price", "currentPrice"]
  const MarketCapKeys: seq<string> := ["market_cap", "marketCap", "market_capitalization"]

  /** The company block: the price and market cap under their three spellings, and the texts with their fallbacks. */
  function Overview(env: Env, metrics: JsVal): (c: CompanyOverview)
    ensures c.currentPrice == SafePick(env.parse, env.show, metrics, PriceKeys)
    ensures c.marketCap == SafePick(env.parse, env.show, metrics, MarketCapKeys)
    ensures c.sector == (if Truthy(Get(metrics, "sector")) then ToJsString(env.show, Get(metrics, "sector")) else "N/A")
    ensures c.industry == (if Truthy(Get(metrics, "industry")) then ToJsString(env.show, Get(metrics, "industry")) else "N/A")
    ensures Truthy(Get(metrics, "description")) ==> c.description == ToJsString(env.show, Get(metrics, "description"))
    ensures !Truthy(Get(metrics, "description")) && Truthy(Get(metrics, "longBusinessSummary"))
            ==> c.description == ToJsString(env.show, Get(metrics, "longBusinessSummary"))
    ensures !Truthy(Get(metrics, "description")) && !Truthy(Get(metrics, "longBusinessSummary"))
            ==> c.description == "No description available"
  {
    CompanyOverview(
      SafePick(env.parse, env.show, metrics, PriceKeys),
      SafePick(env.parse, env.show, metrics, MarketCapKeys),
      ToJsString(env.show, Or(Get(metrics, "sector"), Str("N/A"))),
      ToJsString(env.show, Or(Get(metrics, "industry"), Str("N/A"))),
      ToJsString(env.show, Or(Or(Get(metrics, "description"), Get(metrics, "longBusinessSummary")),
                              Str("No description available"))))
  }

  function Valuation(env: Env, valuationResults: JsVal, price: real): (v: ValuationSummary)
    ensures v.valuationGapPct == ValuationGap(price, PrimaryFairValue(v.dcfFairValue, v.epsFairValue))
    ensures v.recommendation == Recommend(v.valuationGapPct)
    ensures !Truthy(Get(valuationResults, "dcf")) ==> v.phase1Pct == 35.0 && v.phase2Pct == 30.0 && v.terminalPct == 35.0
  {
    var dcfFair := Safe(env.parse, env.show, Get(Get(valuationResults, "dcf"), "dcf_fair_value"), 0.0);
    var eps := Get(valuationResults, "eps");
    var epsFair := Safe(env.parse, env.show, Or(Get(eps, "eps_fair_value"), Get(eps, "target_price")), 0.0);
    var gap := ValuationGap(price, PrimaryFairValue(dcfFair, epsFair));
    var dcf := Or(Get(valuationResults, "dcf"), Obj(map[]));
    ValuationSummary(
      dcfFair, epsFair, gap, Recommend(gap),
      Safe(env.parse, env.show, Get(dcf, "phase1_contribution_pct"), 35.0),
      Safe(env.parse, env.show, Get(dcf, "phase2_contribution_pct"), 30.0),
      Safe(env.parse, env.show, Get(dcf, "terminal_contribution_pct"), 35.0))
  }

  const RevenueGrowthKeys: seq<string> := ["revenue_growth_3y", "revenue_cagr", "revenueGrowth"]
  const EpsGrowthKeys: seq<string> := ["eps_growth_3y", "eps_cagr", "earningsGrowth"]

  /**
   * The growth block: the historical rates under their three spellings; the
   * projected ones from the assumptions (snake case, then camel case), else
   * from the DCF or EPS result.
   */
  function Growth(env: Env, metrics: JsVal, valuationResults: JsVal, assumptions: JsVal): (g: GrowthMetrics)
    ensures g.revenueCagr3y == SafePick(env.parse, env.show, metrics, RevenueGrowthKeys)
    ensures g.epsCagr3y == SafePick(env.parse, env.show, metrics, EpsGrowthKeys)
    ensures Truthy(Get(assumptions, "revenue_growth_rate"))
            ==> g.projectedRevenueGrowth == Safe(env.parse, env.show, Get(assumptions, "revenue_growth_rate"), 0.0)
    ensures !Truthy(Get(assumptions, "revenue_growth_rate")) && Truthy(Get(assumptions, "revenueGrowthRate"))
            ==> g.projectedRevenueGrowth == Safe(env.parse, env.show, Get(assumptions, "revenueGrowthRate"), 0.0)
    ensures !Truthy(Get(assumptions, "revenue_growth_rate")) && !Truthy(Get(assumptions, "revenueGrowthRate"))
            ==> g.projectedRevenueGrowth
                == Safe(env.parse, env.show, Get(Get(valuationResults, "dcf"), "revenue_growth_rate"), 0.0)
    ensures Truthy(Get(assumptions, "eps_growth_rate"))
            ==> g.projectedEpsGrowth == Safe(env.parse, env.show, Get(assumptions, "eps_growth_rate"), 0.0)
    ensures !Truthy(Get(assumptions, "eps_growth_rate")) && Truthy(Get(assumptions, "epsGrowthRate"))
            ==> g.projectedEpsGrowth == Safe(env.parse, env.show, Get(assumptions, "epsGrowthRate"), 0.0)
    ensures !Truthy(Get(assumptions, "eps_growth_rate")) && !Truthy(Get(assumptions, "epsGrowthRate"))
            ==> g.projectedEpsGrowth
                == Safe(env.parse, env.show, Get(Get(valuationResults, "eps"), "eps_growth_rate"), 0.0)
  {
    GrowthMetrics(
      SafePick(env.parse, env.show, metrics, RevenueGrowthKeys),
      SafePick(env.parse, env.show, metrics, EpsGrowthKeys),
      Safe(env.parse, env.show, Or(Or(Get(assumptions, "revenue_growth_rate"), Get(assumptions, "revenueGrowthRate")),
                                   Get(Get(valuationResults, "dcf"), "revenue_growth_rate")), 0.0),
      Safe(env.parse, env.show, Or(Or(Get(assumptions, "eps_growth_rate"), Get(assumptions, "epsGrowthRate")),
                                   Get(Get(valuationResults, "eps"), "eps_growth_rate")), 0.0))
  }

  function ProfitabilityOf(env: Env, metrics: JsVal): Profitability {
    Profitability(
      SafePick(env.parse, env.show, metrics, ["net_margin", "netMargin", "profitMargins"]),
      SafePick(env.parse, env.show, metrics, ["gross_margin", "grossMargin", "grossMargins"]),
      SafePick(env.parse, env.show, metrics, ["operating_margin", "operatingMargin", "operatingMargins"]),
      SafePick(env.parse, env.show, metrics, ["roe", "return_on_equity", "returnOnEquity"]),
      SafePick(env.parse, env.show, metrics, ["roa", "return_on_assets", "returnOnAssets"]))
  }

  function Health(env: Env, metrics: JsVal, roe: real): (h: FinancialHealth)
    ensures 0 <= h.strengthScore <= 100
    ensures h.strengthScore == StrengthScore(h.currentRatio, h.quickRatio, h.debtToEquity, roe)
  {
    var de := SafePick(env.parse, env.show, metrics, ["debt_to_equity", "debtEquityRatio", "debtToEquity"]);
    var cr := SafePick(env.parse, env.show, metrics, ["current_ratio", "currentRatio"]);
    var qr := SafePick(env.parse, env.show, metrics, ["quick_ratio", "quickRatio"]);
    FinancialHealth(de, cr, qr, StrengthScore(cr, qr, de, roe))
  }

  /** `calculateExecutiveSummary`. */
  function CalculateExecutiveSummary(env: Env, metrics: JsVal, valuationResults: JsVal, assumptions: JsVal): (s: Summary)
    ensures s.valuation.valuationGapPct == ValuationGap(s.company.currentPrice, PrimaryFairValue(s.valuation.dcfFairValue, s.valuation.epsFairValue))
    ensures s.valuation.recommendation == Recommend(s.valuation.valuationGapPct)
    ensures 0 <= s.health.strengthScore <= 100
    ensures 1 <= |s.highlights.strengths| <= 5 && 1 <= |s.highlights.risks| <= 4 && 1 <= |s.highlights.opportunities| <= 3
    ensures !Truthy(Get(valuationResults, "dcf")) ==>
              s.valuation.phase1Pct == 35.0 && s.valuation.phase2Pct == 30.0 && s.valuation.terminalPct == 35.0
  {
    var company := Overview(env, metrics);
    var valuation := Valuation(env, valuationResults, company.currentPrice);
    var growth := Growth(env, metrics, valuationResults, assumptions);
    var profitability := ProfitabilityOf(env, metrics);
    var health := Health(env, metrics, profitability.roe);
    var inputs := HighlightInputs(
      valuation.valuationGapPct, profitability.roe, profitability.netMargin, health.strengthScore,
      health.currentRatio, health.debtToEquity, growth.revenueCagr3y, growth.projectedRevenueGrowth,
      company.marketCap);
    Summary(company, valuation, growth, profitability, health, KeyHighlights(env.fixed1, inputs))
  }

  datatype Validation = Validation(isValid: bool, errors: seq<string>, warnings: seq<string>)

  const LowRatioWarning: string := "Low current ratio may indicate liquidity issues"
  const BigGapWarning: string := "Large valuation gap may indicate data quality issues"

  /** `current_ratio < 1` under JavaScript's comparison (ToNumber, NaN compares false). */
  predicate LowCurrentRatio(toNumber: ToNumberFn, d: JsVal) {
    LtF(ToNumber(toNumber, Get(Get(d, "financial_health"), "current_ratio")), 1.0)
  }

  /** `Math.abs(valuation_gap_pct || 0) > 50`. */
  predicate LargeGap(toNumber: ToNumberFn, d: JsVal) {
    GtF(AbsF(ToNumber(toNumber, Or(Get(Get(d, "valuation_summary"), "valuation_gap_pct"), Num(Finite(0.0))))), 50.0)
  }

  /** `validateSummaryData` on a summary as a JavaScript value. */
  function ValidateSummaryData(toNumber: ToNumberFn, d: JsVal): (r: Validation)
    ensures r.isValid <==> r.errors == []
    ensures r.isValid <==> Truthy(Get(Get(d, "company_overview"), "current_price")) && Truthy(Get(d, "valuation_summary"))
    ensures |r.errors| <= 2 && |r.warnings| <= 2
    ensures LowRatioWarning in r.warnings <==> LowCurrentRatio(toNumber, d)
    ensures BigGapWarning in r.warnings <==> LargeGap(toNumber, d)
  {
    var errors :=
      If(!Truthy(Get(Get(d, "company_overview"), "current_price")), "Current price is required")
      + If(!Truthy(Get(d, "valuation_summary")), "Valuation summary is required");
    var warnings :=
      If(LowCurrentRatio(toNumber, d), LowRatioWarning)
      + If(LargeGap(toNumber, d), BigGapWarning);
    assert |LowRatioWarning| != |BigGapWarning|;
    Validation(|errors| == 0, errors, warnings)
  }

  /** The names of a layout's entries (sections or fields), in order. */
  function Names<T>(entries: seq<(string, T)>): (ns: seq<string>)
    ensures |ns| == |entries|
    ensures forall i :: 0 <= i < |entries| ==> ns[i] == entries[i].0
  {
    seq(|entries|, i requires 0 <= i < |entries| => entries[i].0)
  }

  /**
   * The entry listed under `k`: a field's default or a section's field
   * list. Its last listing wins, as a later object key would.
   */
  function EntryFor<T>(entries: seq<(string, T)>, k: string): T
    requires k in Names(entries)
  {
    var n := |entries| - 1;
    if entries[n].0 == k then entries[n].1
    else
      assert k in Names(entries[..n]) by {
        var i :| 0 <= i < |entries| && Names(entries)[i] == k;
        assert Names(entries[..n])[i] == k;
      }
      EntryFor(entries[..n], k)
  }

  /** The names of a non-empty list are those of all but its last entry, plus the last one's, which wins. */
  lemma NamesSnoc<T>(entries: seq<(string, T)>)
    requires |entries| > 0
    ensures forall k :: k in Names(entries) <==> k in Names(entries[..|entries| - 1]) || k == entries[|entries| - 1].0
    ensures forall k :: k in Names(entries[..|entries| - 1]) && k != entries[|entries| - 1].0
                        ==> EntryFor(entries, k) == EntryFor(entries[..|entries| - 1], k)
  {
    var n := |entries| - 1;
    assert Names(entries) == Names(entries[..n]) + [entries[n].0];
  }

  lemma {:induction false} EntryForLast<T>(entries: seq<(string, T)>, i: int, k: string)
    requires 0 <= i < |entries| && entries[i].0 == k
    requires forall j :: i < j < |entries| ==> entries[j].0 != k
    ensures k in Names(entries) && EntryFor(entries, k) == entries[i].1
  {
    assert Names(entries)[i] == k;
    var n := |entries| - 1;
    if n != i {
      assert entries[..n][i].0 == k;
      EntryForLast(entries[..n], i, k);
    }
  }

  /** One section of `formatForPDF`: each field kept when truthy, else its default. */
  function FormatFields(section: JsVal, fields: seq<(string, JsVal)>): (r: map<string, JsVal>)
    ensures forall k :: k in r <==> k in Names(fields)
    ensures forall k :: k in r ==> r[k] == Or(Get(section, k), EntryFor(fields, k))
  {
    if |fields| == 0 then map[]
    else
      var n := |fields| - 1;
      var init := FormatFields(section, fields[..n]);
      NamesSnoc(fields);
      init[fields[n].0 := Or(Get(section, fields[n].0), fields[n].1)]
  }

  function NumZero(): JsVal { Num(Finite(0.0)) }

  const CompanyPdfFields: seq<(string, JsVal)> :=
    [("current_price", NumZero()), ("market_cap", NumZero()), ("sector", Str("N/A")),
     ("industry", Str("N/A")), ("description", Str("No description available"))]
  const ValuationPdfFields: seq<(string, JsVal)> :=
    [("dcf_fair_value", NumZero()), ("eps_fair_value", NumZero()), ("valuation_gap_pct", NumZero()),
     ("investment_recommendation", Str("HOLD")), ("phase1_contribution_pct", NumZero()),
     ("phase2_contribution_pct", NumZero()), ("terminal_contribution_pct", NumZero())]
  const GrowthPdfFields: seq<(string, JsVal)> :=
    [("revenue_cagr_3y", NumZero()), ("eps_cagr_3y", NumZero()),
     ("projected_revenue_growth", NumZero()), ("projected_eps_growth", NumZero())]
  const ProfitabilityPdfFields: seq<(string, JsVal)> :=
    [("net_margin", NumZero()), ("gross_margin", NumZero()), ("operating_margin", NumZero()),
     ("roe", NumZero()), ("roa", NumZero())]
  const HealthPdfFields: seq<(string, JsVal)> :=
    [("debt_to_equity", NumZero()), ("current_ratio", NumZero()), ("quick_ratio", NumZero()),
     ("financial_strength_score", NumZero())]
  const HighlightPdfFields: seq<(string, JsVal)> :=
    [("strengths", Arr([Str("Company maintains stable operations")])),
     ("risks", Arr([Str("Market volatility may impact performance")])),
     ("opportunities", Arr([Str("Potential for operational improvements")]))]

  /** The sections of `formatForPDF` with their fields and defaults. */
  const PdfLayout: seq<(string, seq<(string, JsVal)>)> := [
    ("company_overview", CompanyPdfFields),
    ("valuation_summary", ValuationPdfFields),
    ("growth_metrics", GrowthPdfFields),
    ("profitability_metrics", ProfitabilityPdfFields),
    ("financial_health", HealthPdfFields),
    ("key_highlights", HighlightPdfFields)
  ]

  /** Every section formatted from the input object. */
  function FormatSections(d: JsVal, layout: seq<(string, seq<(string, JsVal)>)>): (r: map<string, JsVal>)
    ensures forall k :: k in r <==> k in Names(layout)
    ensures forall k :: k in r ==> r[k] == Obj(FormatFields(Get(d, k), EntryFor(layout, k)))
  {
    if |layout| == 0 then map[]
    else
      var n := |layout| - 1;
      var init := FormatSections(d, layout[..n]);
      NamesSnoc(layout);
      init[layout[n].0 := Obj(FormatFields(Get(d, layout[n].0), layout[n].1))]
  }

  /** `formatForPDF` for a given section layout: throws on a falsy summary. */
  function FormatWith(layout: seq<(string, seq<(string, JsVal)>)>, d: JsVal): (r: Result<JsVal, string>)
    ensures r.Failure? <==> !Truthy(d)
    ensures r.Success? ==> r.value.Obj? && forall k :: k in r.value.fields <==> k in Names(layout)
  {
    if !Truthy(d) then Failure("No summary data available for PDF generation")
    else Success(Obj(FormatSections(d, layout)))
  }

  /** The sections `formatForPDF` writes. */
  const PdfSections: set<string> := {
    "company_overview", "valuation_summary", "growth_metrics",
    "profitability_metrics", "financial_health", "key_highlights"}

  /**
   * `formatForPDF`: throws on a falsy summary; otherwise writes the six
   * sections, each listed field the input's value when truthy, else its
   * default (the recommendation defaults to HOLD, the sector to N/A).
   */
  function FormatForPdf(d: JsVal): (r: Result<JsVal, string>)
    ensures r.Failure? <==> !Truthy(d)
    ensures r.Success? ==> r.value.Obj? && r.value.fields.Keys == PdfSections
    ensures r.Success? ==> Get(Get(r.value, "company_overview"), "sector")
                           == Or(Get(Get(d, "company_overview"), "sector"), Str("N/A"))
    ensures r.Success? ==> Get(Get(r.value, "valuation_summary"), "investment_recommendation")
                           == Or(Get(Get(d, "valuation_summary"), "investment_recommendation"), Str("HOLD"))
  {
    PdfLayoutFacts(d);
    FormatWith(PdfLayout, d)
  }

  lemma PdfLayoutFacts(d: JsVal)
    ensures forall k :: k in Names(PdfLayout) <==> k in PdfSections
    ensures Truthy(d) ==> Get(Get(FormatWith(PdfLayout, d).value, "company_overview"), "sector")
                          == Or(Get(Get(d, "company_overview"), "sector"), Str("N/A"))
    ensures Truthy(d) ==> Get(Get(FormatWith(PdfLayout, d).value, "valuation_summary"), "investment_recommendation")
                          == Or(Get(Get(d, "valuation_summary"), "investment_recommendation"), Str("HOLD"))
  {
    PdfSectionNames();
    if Truthy(d) {
      PdfSectorDefault(d);
      PdfRecommendationDefault(d);
    }
  }

  lemma PdfSectorDefault(d: JsVal)
    requires Truthy(d)
    ensures Get(Get(FormatWith(PdfLayout, d).value, "company_overview"), "sector")
            == Or(Get(Get(d, "company_overview"), "sector"), Str("N/A"))
  {
    PdfSectionNames();
    PdfFieldNames();
    PdfFieldDefault(d, 0, "company_overview", 2, "sector");
  }

  lemma PdfRecommendationDefault(d: JsVal)
    requires Truthy(d)
    ensures Get(Get(FormatWith(PdfLayout, d).value, "valuation_summary"), "investment_recommendation")
            == Or(Get(Get(d, "valuation_summary"), "investment_recommendation"), Str("HOLD"))
  {
    PdfSectionNames();
    PdfFieldNames();
    PdfFieldDefault(d, 1, "valuation_summary", 3, "investment_recommendation");
  }

  lemma PdfSectionNames()
    ensures Names(PdfLayout) == ["company_overview", "valuation_summary", "growth_metrics",
                                 "profitability_metrics", "financial_health", "key_highlights"]
    ensures PdfLayout[0].1 == CompanyPdfFields && PdfLayout[1].1 == ValuationPdfFields
  {
  }

  lemma PdfFieldNames()
    ensures Names(CompanyPdfFields) == ["current_price", "market_cap", "sector", "industry", "description"]
    ensures Names(ValuationPdfFields) == ["dcf_fair_value", "eps_fair_value", "valuation_gap_pct", "investment_recommendation",
                                          "phase1_contribution_pct", "phase2_contribution_pct", "terminal_contribution_pct"]
    ensures CompanyPdfFields[2].1 == Str("N/A") && ValuationPdfFields[3].1 == Str("HOLD")
  {
  }

  /** Field `f`, listed once at position `j` of section `k` (position `i`), is the input's value or that listing's default. */
  lemma PdfFieldDefault(d: JsVal, i: int, k: string, j: int, f: string)
    requires Truthy(d) && 0 <= i < |PdfLayout| && Names(PdfLayout)[i] == k
    requires forall i' :: i < i' < |PdfLayout| ==> Names(PdfLayout)[i'] != k
    requires 0 <= j < |PdfLayout[i].1| && Names(PdfLayout[i].1)[j] == f
    requires forall j' :: j < j' < |PdfLayout[i].1| ==> Names(PdfLayout[i].1)[j'] != f
    ensures Get(Get(FormatWith(PdfLayout, d).value, k), f) == Or(Get(Get(d, k), f), PdfLayout[i].1[j].1)
  {
    EntryForLast(PdfLayout, i, k);
    EntryForLast(PdfLayout[i].1, j, f);
    FormatKeepsTruthy(PdfLayout, d, k, f);
  }

  /**
   * Each listed field of each section is the input's value when that is
   * truthy, else the field's default.
   */
  lemma FormatKeepsTruthy(layout: seq<(string, seq<(string, JsVal)>)>, d: JsVal, k: string, f: string)
    requires Truthy(d) && k in Names(layout) && f in Names(EntryFor(layout, k))
    ensures var out := FormatWith(layout, d).value;
            k in out.fields && Get(out.fields[k], f) == Or(Get(Get(d, k), f), EntryFor(EntryFor(layout, k), f))
  {
  }

  /** Formatting one section twice changes nothing: truthy fields stay, falsy ones are already defaults. */
  lemma FormatFieldsIdempotent(section: JsVal, fields: seq<(string, JsVal)>)
    ensures FormatFields(Obj(FormatFields(section, fields)), fields) == FormatFields(section, fields)
  {
    var once := FormatFields(section, fields);
    var twice := FormatFields(Obj(once), fields);
    forall k | k in once ensures twice[k] == once[k] {
      assert Get(Obj(once), k) == once[k];
    }
  }

  /** Formatting every section twice changes nothing. */
  lemma FormatSectionsIdempotent(d: JsVal, layout: seq<(string, seq<(string, JsVal)>)>)
    ensures FormatSections(Obj(FormatSections(d, layout)), layout) == FormatSections(d, layout)
  {
    var once := FormatSections(d, layout);
    var twice := FormatSections(Obj(once), layout);
    assert twice.Keys == once.Keys;
    forall k | k in once ensures twice[k] == once[k] {
      var fields := EntryFor(layout, k);
      var section := FormatFields(Get(d, k), fields);
      assert once[k] == Obj(section);
      assert Get(Obj(once), k) == Obj(section);
      assert twice[k] == Obj(FormatFields(Obj(section), fields));
      FormatFieldsIdempotent(Get(d, k), fields);
    }
  }

  /** Formatting a formatted summary again changes nothing. */
  lemma FormatWithIdempotent(layout: seq<(string, seq<(string, JsVal)>)>, d: JsVal)
    requires Truthy(d)
    ensures FormatWith(layout, FormatWith(layout, d).value) == FormatWith(layout, d)
  {
    FormatSectionsIdempotent(d, layout);
  }
}
