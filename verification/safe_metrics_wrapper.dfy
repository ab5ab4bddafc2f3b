/**
 * The lenient wrapper around the metric calculator
 * (backend/routers/safe_metrics_wrapper.py): numeric coercion of every
 * cell, recursive cleaning of statement dicts, padding each row to the
 * number of years, and the fallback result.
 *
 * The wrapper calls `calculate_metrics` with four positional arguments
 * where seven are required (backend/metrics/metrics_calculator.py:10), so
 * the call always raises `TypeError` and the fallback is what the wrapper
 * returns; `SafeCalculateMetrics` models exactly that.
 */
module SafeMetricsWrapper {
  import opened Wrappers
  import opened Numeric
  import opened Text
  import opened PyModel

  /** The zero the wrapper returns on every failure path (a Python `int`). */
  const Zero: PyValue := PyInt(0)

  /** `str(value).replace(',', '').replace('$', '').replace('₹', '').strip()`. */
  function CleanText(s: string): (r: string)
    ensures |r| <= |s|
  {
    Trim(RemoveChar(RemoveChar(RemoveChar(s, ','), '$'), '₹'))
  }

  /** A value `safe_numeric` can return: the integer 0 or a float. */
  predicate IsNumber(v: PyValue) {
    v == Zero || v.PyFloat?
  }

  /**
   * `safe_numeric`: `None` and blank or "-" strings give 0; a string is
   * otherwise returned as `float()` of its cleaned text, NaN and infinity
   * spellings included; any other value goes through `float()` and a NaN
   * or infinite result gives 0; `ValueError` and `TypeError` give 0.
   */
  function SafeNumeric(parse: ParseFloatFn, v: PyValue): (r: PyValue)
    ensures IsNumber(r)
    ensures v.PyNone? ==> r == Zero
    ensures v.PyStr? && (CleanText(v.s) == "" || CleanText(v.s) == "-") ==> r == Zero
    ensures v.PyStr? && FloatOfString(parse, CleanText(v.s)).None? ==> r == Zero
    ensures v.PyStr? && CleanText(v.s) != "" && CleanText(v.s) != "-" && FloatOfString(parse, CleanText(v.s)).Some?
            ==> r == PyFloat(FloatOfString(parse, CleanText(v.s)).value)
    ensures !v.PyStr? && r.PyFloat? ==> r.f.Finite?
    ensures v.PyFloat? && v.f.Finite? ==> r == v
    ensures v.PyInt? ==> r == PyFloat(Finite(v.i as real))
    ensures v.PyList? || v.PyDict? || v.PyTimestamp? || v.PyNaT? ==> r == Zero
  {
    if v.PyNone? then Zero
    else if v.PyStr? then
      var cleaned := CleanText(v.s);
      if cleaned == "" || cleaned == "-" then Zero
      else match FloatOfString(parse, cleaned)
        case Some(f) => PyFloat(f)
        case None => Zero
    else match ToFloat(parse, v)
      case Success(f) => if f.Finite? then PyFloat(f) else Zero
      case Failure(_) => Zero
  }

  /**
   * The two paths disagree: a NaN float is turned into 0, but the string
   * "nan" comes back as NaN (and "inf" as infinity), because the string
   * path returns before the finiteness check. A second pass then zeroes it.
   */
  lemma NanStringPassesThrough(parse: ParseFloatFn)
    ensures SafeNumeric(parse, PyFloat(NaN)) == Zero
    ensures SafeNumeric(parse, PyStr("nan")) == PyFloat(NaN)
    ensures SafeNumeric(parse, PyStr("inf")) == PyFloat(PosInf)
    ensures SafeNumeric(parse, SafeNumeric(parse, PyStr("nan"))) == Zero
  {
    SpelledNonFinite(parse, "nan");
    SpelledNonFinite(parse, "inf");
  }

  lemma SpelledNonFinite(parse: ParseFloatFn, w: string)
    requires w == "nan" || w == "inf"
    ensures SafeNumeric(parse, PyStr(w)) == PyFloat(if w == "nan" then NaN else PosInf)
  {
    PlainWordClean(w);
    PlainWordTrim(w);
    var f := if w == "nan" then NaN else PosInf;
    assert FloatOfString(parse, w) == Some(f);
    assert w != "" && w != "-" by { assert |w| == 3; }
    CleanFloatString(parse, w, f);
  }

  /** A string that cleans to itself and parses as a float comes back as that float, finite or not. */
  lemma CleanFloatString(parse: ParseFloatFn, s: string, f: Float)
    requires CleanText(s) == s && s != "" && s != "-" && FloatOfString(parse, s) == Some(f)
    ensures SafeNumeric(parse, PyStr(s)) == PyFloat(f)
  {
  }

  /** A word without separators, currency signs or spaces is left alone by the cleaning. */
  lemma PlainWordClean(w: string)
    requires w == "nan" || w == "inf"
    ensures CleanText(w) == w
  {
    RemoveAbsent(w, ',');
    RemoveAbsent(w, '$');
    RemoveAbsent(w, '₹');
    PlainWordTrim(w);
  }

  lemma PlainWordTrim(w: string)
    requires w == "nan" || w == "inf"
    ensures Trim(w) == w && Lower(Trim(w)) == w
  {
    assert !IsSpace(w[0]) && !IsSpace(w[|w| - 1]);
    TrimNoSpace(w);
    LowerIs(w, w);
  }

  lemma {:induction false} RemoveAbsent(s: string, c: char)
    requires c !in s
    ensures RemoveChar(s, c) == s
  {
    if |s| > 0 {
      assert c !in s[1..];
      RemoveAbsent(s[1..], c);
    }
  }

  /** A cleaned structure: dicts of cleaned values, lists of numbers, or a number. */
  predicate Cleaned(v: PyValue)
    decreases v
  {
    match v
    case PyDict(entries) => forall i :: 0 <= i < |entries| ==> Cleaned(entries[i].1)
    case PyList(items) => forall i :: 0 <= i < |items| ==> IsNumber(items[i])
    case _ => IsNumber(v)
  }

  /**
   * `clean_financial_data`: dicts are rebuilt with the same keys and cleaned
   * values, lists are mapped with `safe_numeric` without recursing (so a
   * nested container becomes 0), and anything else is `safe_numeric`'d.
   */
  function CleanFinancialData(parse: ParseFloatFn, v: PyValue): (r: PyValue)
    ensures v.PyDict? ==> r.PyDict? && |r.entries| == |v.entries|
                          && forall i :: 0 <= i < |v.entries| ==> r.entries[i].0 == v.entries[i].0
    ensures v.PyList? ==> r.PyList? && |r.items| == |v.items|
                          && forall i :: 0 <= i < |v.items| ==> r.items[i] == SafeNumeric(parse, v.items[i])
    ensures !v.PyDict? && !v.PyList? ==> r == SafeNumeric(parse, v)
    decreases v
  {
    match v
    case PyDict(entries) =>
      PyDict(seq(|entries|, i requires 0 <= i < |entries| => (entries[i].0, CleanFinancialData(parse, entries[i].1))))
    case PyList(items) => PyList(seq(|items|, i requires 0 <= i < |items| => SafeNumeric(parse, items[i])))
    case _ => SafeNumeric(parse, v)
  }

  /** Whatever goes in, what comes out is cleaned. */
  lemma {:induction false} CleanFinancialDataCleans(parse: ParseFloatFn, v: PyValue)
    ensures Cleaned(CleanFinancialData(parse, v))
    decreases v
  {
    match v
    case PyDict(entries) =>
      var r := CleanFinancialData(parse, v);
      forall i | 0 <= i < |entries| ensures Cleaned(r.entries[i].1) {
        CleanFinancialDataCleans(parse, entries[i].1);
      }
    case PyList(_) =>
    case _ =>
  }

  /** A list nested inside a list is not recursed into: it becomes 0. */
  lemma NestedListBecomesZero(parse: ParseFloatFn, inner: seq<PyValue>)
    ensures CleanFinancialData(parse, PyList([PyList(inner)])) == PyList([Zero])
  {
  }

  /** `[values] if values is not None else []` for a row that is not a list. */
  function AsList(v: PyValue): (r: seq<PyValue>)
    ensures v.PyList? ==> r == v.items
    ensures v.PyNone? ==> r == []
    ensures !v.PyList? && !v.PyNone? ==> r == [v]
  {
    if v.PyList? then v.items else if v.PyNone? then [] else [v]
  }

  /**
   * The pad/trim loop for one row: zeros are appended until the row is as
   * long as the years, then the row is cut to that length.
   */
  method PadRow(values: seq<PyValue>, n: nat) returns (r: seq<PyValue>)
    ensures |r| == n
    ensures forall i :: 0 <= i < n ==> r[i] == (if i < |values| then values[i] else Zero)
  {
    var vs := values;
    while |vs| < n
      invariant |values| <= |vs| && vs[..|values|] == values
      invariant forall i :: |values| <= i < |vs| ==> vs[i] == Zero
      invariant |vs| <= n || vs == values
      decreases n - |vs|
    {
      vs := vs + [Zero];
    }
    r := vs[..n];
  }

  /** The row after padding, as a function (the loop above computes it). */
  function Padded(values: seq<PyValue>, n: nat): (r: seq<PyValue>)
    ensures |r| == n
  {
    seq(n, i requires 0 <= i < n => if i < |values| then values[i] else Zero)
  }

  /** The loop and the function agree. */
  method PadRowMatches(values: seq<PyValue>, n: nat) returns (r: seq<PyValue>)
    ensures r == Padded(values, n)
  {
    r := PadRow(values, n);
  }

  /** Every row of a cleaned statement dict, padded to `n` entries. */
  function PadTable(entries: seq<(string, PyValue)>, n: nat): (r: seq<(string, PyValue)>)
    ensures |r| == |entries|
    ensures forall i :: 0 <= i < |entries| ==>
              r[i].0 == entries[i].0 && r[i].1.PyList? && |r[i].1.items| == n
  {
    seq(|entries|, i requires 0 <= i < |entries| => (entries[i].0, PyList(Padded(AsList(entries[i].1), n))))
  }

  /** `dict.get(key)`: the first entry under `key`. */
  function Get(entries: seq<(string, PyValue)>, key: string): (r: Option<PyValue>)
    ensures r.Some? <==> exists i :: 0 <= i < |entries| && entries[i].0 == key
    ensures r.Some? ==> exists i :: 0 <= i < |entries| && entries[i] == (key, r.value)
  {
    if |entries| == 0 then None
    else if entries[0].0 == key then Some(entries[0].1)
    else
      var rest := Get(entries[1..], key);
      assert forall i :: 1 <= i < |entries| ==> entries[1..][i - 1] == entries[i];
      rest
  }

  /** The fallback metrics, as returned after the final cleaning. */
  datatype FallbackMetrics = FallbackMetrics(
    years: PyValue, revenue: PyValue, netProfit: PyValue, currentPrice: PyValue,
    latestRevenue: PyValue, sharesOutstanding: PyValue, error: PyValue)

  /** The fallback assumptions, as returned after the final cleaning. */
  datatype FallbackAssumptions = FallbackAssumptions(
    companyName: PyValue, revenueGrowthRate: PyValue, terminalGrowthRate: PyValue,
    discountRate: PyValue, forecastYears: PyValue, baseYear: PyValue)

  /** The year labels as a Python list of strings. */
  function YearList(years: seq<string>): (r: PyValue)
    ensures r.PyList? && |r.items| == |years|
    ensures forall i :: 0 <= i < |years| ==> r.items[i] == PyStr(years[i])
  {
    PyList(seq(|years|, i requires 0 <= i < |years| => PyStr(years[i])))
  }

  /** The message of the `TypeError` the mis-arity call raises. */
  const ArityMessage: string :=
    "calculate_metrics() missing 3 required positional arguments: 'years', 'qtrs', and 'meta'"

  /** A statement after `clean_financial_data(t) if t else {}` and the pad loop. */
  function Prepared(parse: ParseFloatFn, t: PyValue, n: nat): (r: seq<(string, PyValue)>)
    requires t.PyDict?
  {
    var cleaned := if Truthy(t) then CleanFinancialData(parse, t).entries else [];
    PadTable(cleaned, n)
  }

  /** `pnl_clean.get(first, pnl_clean.get(second, [0] * n))` on padded rows: a row of `n` cells. */
  function RowOr(entries: seq<(string, PyValue)>, first: string, second: string, n: nat): (r: PyValue)
    requires forall i :: 0 <= i < |entries| ==> entries[i].1.PyList? && |entries[i].1.items| == n
    ensures r.PyList? && |r.items| == n
    ensures Get(entries, first).Some? ==> r == Get(entries, first).value
    ensures Get(entries, first).None? && Get(entries, second).Some? ==> r == Get(entries, second).value
    ensures Get(entries, first).None? && Get(entries, second).None? ==> r == PyList(seq(n, _ => Zero))
  {
    match Get(entries, first)
    case Some(v) => v
    case None =>
      match Get(entries, second)
      case Some(v) => v
      case None => PyList(seq(n, _ => Zero))
  }

  /**
   * `latest_revenue` after cleaning: `safe_numeric` of the last revenue
   * value (of 0 when there are no years), coerced once more by the final
   * `clean_financial_data`.
   */
  function LatestRevenue(parse: ParseFloatFn, revenue: PyValue): (r: PyValue)
    requires revenue.PyList?
    ensures IsNumber(r)
    ensures |revenue.items| > 0
            ==> r == SafeNumeric(parse, CleanFinancialData(parse, revenue).items[|revenue.items| - 1])
    ensures |revenue.items| == 0 ==> r == PyFloat(Finite(0.0))
  {
    var n := |revenue.items|;
    CleanFinancialData(parse, SafeNumeric(parse, if n > 0 then revenue.items[n - 1] else Zero))
  }

  /** The fallback metrics dict, built from the prepared profit-and-loss rows and cleaned. */
  function FallbackMetricsOf(parse: ParseFloatFn, pnlClean: seq<(string, PyValue)>, years: seq<string>)
    : (m: FallbackMetrics)
    requires forall i :: 0 <= i < |pnlClean| ==> pnlClean[i].1.PyList? && |pnlClean[i].1.items| == |years|
    ensures m.sharesOutstanding == PyFloat(Finite(1000000.0))
    ensures m.years.PyList? && |m.years.items| == |years|
    ensures forall i :: 0 <= i < |years| ==> m.years.items[i] == SafeNumeric(parse, PyStr(years[i]))
    ensures m.revenue.PyList? && |m.revenue.items| == |years|
    ensures m.netProfit.PyList? && |m.netProfit.items| == |years|
    ensures m.currentPrice == PyFloat(Finite(0.0))
    ensures IsNumber(m.latestRevenue)
    ensures |years| == 0 ==> m.latestRevenue == PyFloat(Finite(0.0))
    ensures IsNumber(m.error) && m.error == SafeNumeric(parse, PyStr(ArityMessage))
  {
    var n := |years|;
    var revenue := RowOr(pnlClean, "Sales", "Revenue", n);
    var netProfit := RowOr(pnlClean, "Net profit", "Net Income", n);
    FallbackMetrics(
      CleanFinancialData(parse, YearList(years)), CleanFinancialData(parse, revenue),
      CleanFinancialData(parse, netProfit), CleanFinancialData(parse, Zero), LatestRevenue(parse, revenue),
      CleanFinancialData(parse, PyInt(1000000)), CleanFinancialData(parse, PyStr(ArityMessage)))
  }
  /** The fallback's latest revenue is the cleaned revenue row's last value, cleaned once more. */
  lemma FallbackLatestRevenue(parse: ParseFloatFn, pnlClean: seq<(string, PyValue)>, years: seq<string>)
    requires forall i :: 0 <= i < |pnlClean| ==> pnlClean[i].1.PyList? && |pnlClean[i].1.items| == |years|
    requires |years| > 0
    ensures var m := FallbackMetricsOf(parse, pnlClean, years);
            m.latestRevenue == SafeNumeric(parse, m.revenue.items[|years| - 1])
  {
    var revenue := RowOr(pnlClean, "Sales", "Revenue", |years|);
    var m := FallbackMetricsOf(parse, pnlClean, years);
    assert m.revenue == CleanFinancialData(parse, revenue);
    assert m.latestRevenue == LatestRevenue(parse, revenue);
  }


  /** The fallback assumptions dict, cleaned: the base year is the last year label's number, or 2023. */
  function FallbackAssumptionsOf(parse: ParseFloatFn, years: seq<string>): (a: FallbackAssumptions)
    ensures |years| == 0 ==> a.baseYear == PyFloat(Finite(2023.0))
    ensures |years| > 0 ==> a.baseYear == SafeNumeric(parse, PyStr(years[|years| - 1]))
    ensures a.revenueGrowthRate == PyFloat(Finite(10.0)) && a.terminalGrowthRate == PyFloat(Finite(3.0))
    ensures a.discountRate == PyFloat(Finite(12.0)) && a.forecastYears == PyFloat(Finite(5.0))
  {
    var n := |years|;
    FallbackAssumptions(
      CleanFinancialData(parse, PyStr("Unknown Company")), CleanFinancialData(parse, PyFloat(Finite(10.0))),
      CleanFinancialData(parse, PyFloat(Finite(3.0))), CleanFinancialData(parse, PyFloat(Finite(12.0))),
      CleanFinancialData(parse, PyInt(5)),
      CleanFinancialData(parse, if n > 0 then PyStr(years[n - 1]) else PyInt(2023)))
  }

  /**
   * `safe_calculate_metrics`: the statements are cleaned and padded, the
   * mis-arity call raises, and the fallback is built from the prepared
   * profit-and-loss dict and cleaned once more. The year labels, being
   * text, come back as numbers.
   */
  function SafeCalculateMetrics(parse: ParseFloatFn, pnl: PyValue, bs: PyValue, cf: PyValue, years: seq<string>)
    : (r: (FallbackMetrics, FallbackAssumptions))
    requires pnl.PyDict? && bs.PyDict? && cf.PyDict?
    ensures r.0.sharesOutstanding == PyFloat(Finite(1000000.0))
    ensures r.0.years.PyList? && |r.0.years.items| == |years|
    ensures forall i :: 0 <= i < |years| ==> r.0.years.items[i] == SafeNumeric(parse, PyStr(years[i]))
    ensures |years| == 0 ==> r.1.baseYear == PyFloat(Finite(2023.0))
    ensures |years| > 0 ==> r.1.baseYear == SafeNumeric(parse, PyStr(years[|years| - 1]))
    ensures r.0.currentPrice == PyFloat(Finite(0.0))
  {
    (FallbackMetricsOf(parse, Prepared(parse, pnl, |years|), years), FallbackAssumptionsOf(parse, years))
  }

  /**
   * The fallback's revenue is the padded "Sales" row when there is one,
   * otherwise the padded "Revenue" row, otherwise zeros; it has one cell per
   * year, and so has the net profit row.
   */
  lemma FallbackRevenue(parse: ParseFloatFn, pnl: PyValue, bs: PyValue, cf: PyValue, years: seq<string>)
    requires pnl.PyDict? && bs.PyDict? && cf.PyDict?
    ensures var p := Prepared(parse, pnl, |years|);
            var m := SafeCalculateMetrics(parse, pnl, bs, cf, years).0;
            m.revenue == CleanFinancialData(parse, RowOr(p, "Sales", "Revenue", |years|))
            && m.revenue.PyList? && |m.revenue.items| == |years|
            && m.netProfit.PyList? && |m.netProfit.items| == |years|
  {
  }
}
