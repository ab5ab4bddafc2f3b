/**
 * The report's traffic-light rules and formatting helpers
 * (backend/pdf/styles.py): the financial-health thresholds, the colour
 * tables for the three labels, `safe_num` and `fmt_rs`.
 *
 * Values are extended floats, so the rules' behaviour on NaN and on the
 * infinities is part of the model; the thousands-grouped fixed-point text
 * of `fmt_rs` is an oracle.
 */
module Styles {
  import opened Wrappers
  import opened Numeric
  import opened Text
  import opened PyModel

  datatype Rag = Green | Amber | Red

  /** The seven rows of `FIN_HEALTH_RULES`. */
  datatype HealthMetric = Roe | Roce | PegRatio | DebtEquity | TtmPe | TtmPb | RevCagr3y

  /** The rule's key in `FIN_HEALTH_RULES`. */
  function RuleKey(m: HealthMetric): string {
    match m
    case Roe => "ROE"
    case Roce => "ROCE"
    case PegRatio => "PEG RATIO"
    case DebtEquity => "DEBT/EQUITY"
    case TtmPe => "TTM P/E"
    case TtmPb => "TTM P/B"
    case RevCagr3y => "REV CAGR (3Y)"
  }

  /** ROE, ROCE and revenue CAGR are better when higher; the other four when lower. */
  predicate HigherIsBetter(m: HealthMetric) {
    m == Roe || m == Roce || m == RevCagr3y
  }

  /** The Green threshold: at or above it (higher-better) or below it (lower-better). */
  function GreenBound(m: HealthMetric): real {
    match m
    case Roe => 15.0
    case Roce => 15.0
    case RevCagr3y => 15.0
    case PegRatio => 1.0
    case DebtEquity => 0.8
    case TtmPe => 30.0
    case TtmPb => 2.0
  }

  /** The far end of the Amber band. */
  function AmberBound(m: HealthMetric): real {
    match m
    case Roe => 11.0
    case Roce => 11.0
    case RevCagr3y => 8.0
    case PegRatio => 1.5
    case DebtEquity => 2.0
    case TtmPe => 50.0
    case TtmPb => 4.0
  }

  /**
   * One rule of `FIN_HEALTH_RULES` applied to a value. Higher-better rules
   * are Green at or above the Green bound and Amber in [Amber bound, Green
   * bound); lower-better rules are Green below the Green bound and Amber in
   * [Green bound, Amber bound], both ends included. Every comparison with
   * NaN is false, so NaN is Red.
   */
  function Classify(m: HealthMetric, v: Float): (r: Rag)
    ensures v.NaN? ==> r == Red
    ensures v.Finite? && HigherIsBetter(m) ==>
              (r == Green <==> v.v >= GreenBound(m))
              && (r == Amber <==> AmberBound(m) <= v.v < GreenBound(m))
    ensures v.Finite? && !HigherIsBetter(m) ==>
              (r == Green <==> v.v < GreenBound(m))
              && (r == Amber <==> GreenBound(m) <= v.v <= AmberBound(m))
  {
    if HigherIsBetter(m) then
      if GeF(v, GreenBound(m)) then Green
      else if GeF(v, AmberBound(m)) && LtF(v, GreenBound(m)) then Amber
      else Red
    else
      if LtF(v, GreenBound(m)) then Green
      else if GeF(v, GreenBound(m)) && LeF(v, AmberBound(m)) then Amber
      else Red
  }

  /** The bands in the order of preference. */
  function Rank(r: Rag): nat {
    match r
    case Green => 2
    case Amber => 1
    case Red => 0
  }

  /**
   * The rules are monotone: a better value never gets a worse label. For a
   * higher-better metric a larger value ranks at least as well; for a
   * lower-better one a smaller value does.
   */
  lemma ClassifyMonotone(m: HealthMetric, v: real, w: real)
    requires v <= w
    ensures HigherIsBetter(m) ==> Rank(Classify(m, Finite(v))) <= Rank(Classify(m, Finite(w)))
    ensures !HigherIsBetter(m) ==> Rank(Classify(m, Finite(w))) <= Rank(Classify(m, Finite(v)))
  {
  }

  /**
   * The printed rule text states the same bands: at ROE 15 and P/E 30 the
   * label switches exactly at the stated bound, and an infinite P/E below
   * zero counts as Green because the thresholds compare with `<` only.
   */
  lemma ClassifyBoundaries()
    ensures Classify(Roe, Finite(15.0)) == Green && Classify(Roe, Finite(11.0)) == Amber
    ensures Classify(Roe, Finite(10.99)) == Red
    ensures Classify(TtmPe, Finite(50.0)) == Amber && Classify(TtmPe, Finite(50.01)) == Red
    ensures Classify(PegRatio, Finite(1.5)) == Amber && Classify(DebtEquity, Finite(2.0)) == Amber
    ensures Classify(TtmPe, NegInf) == Green && Classify(TtmPe, PosInf) == Red
    ensures Classify(Roe, PosInf) == Green
  {
  }

  /** The label text the report prints. */
  function RagLabel(r: Rag): string {
    match r
    case Green => "Green"
    case Amber => "Amber"
    case Red => "Red"
  }

  /** `RAG_BG`. */
  const RagBg: map<string, string> := map["Green" := "#ecfdf5", "Amber" := "#fef3c7", "Red" := "#fee2e2"]

  /** `RAG_BORDER`. */
  const RagBorder: map<string, string> := map["Green" := "#10b981", "Amber" := "#f59e0b", "Red" := "#ef4444"]

  /**
   * Every label a rule can produce has a background and a border colour,
   * and the three labels get three different colours of each kind.
   */
  lemma RagColoursTotal(m: HealthMetric, v: Float)
    ensures RagLabel(Classify(m, v)) in RagBg && RagLabel(Classify(m, v)) in RagBorder
    ensures RagBg.Keys == {"Green", "Amber", "Red"} && RagBorder.Keys == RagBg.Keys
    ensures forall a, b :: a in RagBg && b in RagBg && a != b ==> RagBg[a] != RagBg[b] && RagBorder[a] != RagBorder[b]
  {
  }

  /**
   * `safe_num(val, default)`: `None` gives the default, a list its first
   * element or the default when empty, anything else itself.
   */
  function SafeNum(v: PyValue, default: PyValue): (r: PyValue)
    ensures v.PyNone? ==> r == default
    ensures v.PyList? && |v.items| > 0 ==> r == v.items[0]
    ensures v.PyList? && |v.items| == 0 ==> r == default
    ensures !v.PyNone? && !v.PyList? ==> r == v
  {
    if v.PyNone? then default
    else if v.PyList? then (if |v.items| > 0 then v.items[0] else default)
    else v
  }

  /** The `:,.{decimals}f` rendering of a float (grouped digits, fixed decimals). */
  type FormatFn = (Float, nat) -> string

  /**
   * `fmt_rs(v, decimals)`: "Rs" followed by the grouped fixed-point text of
   * `float(v)`, or "N/A" when `float(v)` raises.
   */
  function FmtRs(fmt: FormatFn, parse: ParseFloatFn, v: PyValue, decimals: nat): (r: string)
    ensures FloatOf(parse, v).Failure? ==> r == "N/A"
    ensures FloatOf(parse, v).Success? ==> StartsWith(r, "Rs") && r[2..] == fmt(FloatOf(parse, v).value, decimals)
  {
    match FloatOf(parse, v)
    case Success(f) => "Rs" + fmt(f, decimals)
    case Failure(_) => "N/A"
  }

  /** Numbers always format; `None`, containers and dates give "N/A". */
  lemma FmtRsNumbers(fmt: FormatFn, parse: ParseFloatFn, v: PyValue, decimals: nat)
    ensures v.PyInt? || v.PyFloat? || v.PyBool? ==> StartsWith(FmtRs(fmt, parse, v, decimals), "Rs")
    ensures v.PyNone? || v.PyList? || v.PyDict? || v.PyTimestamp? ==> FmtRs(fmt, parse, v, decimals) == "N/A"
  {
  }
}
