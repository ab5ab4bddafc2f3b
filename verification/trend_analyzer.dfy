/**
 * Trend tags for short metric series (frontend/src/lib/TrendAnalyzer.ts):
 * the signs of the consecutive differences decide whether a series is
 * improving, declining, volatile or stable, and the tags feed a one-line
 * summary and a traffic-light line.
 */
module TrendAnalyzer {
  import opened Text

  datatype TrendTag = Improving | Stable | Declining | Volatile

  /** The tag's name as the source spells it. */
  function TagName(t: TrendTag): string {
    match t
    case Improving => "Improving"
    case Stable => "Stable"
    case Declining => "Declining"
    case Volatile => "Volatile"
  }

  /** `data[i] - data[i - 1]` for every index after the first. */
  function Diffs(data: seq<real>): (d: seq<real>)
    requires |data| >= 1
    ensures |d| == |data| - 1
    ensures forall i :: 0 <= i < |d| ==> d[i] == data[i + 1] - data[i]
  {
    seq(|data| - 1, i requires 0 <= i < |data| - 1 => data[i + 1] - data[i])
  }

  /** `diff.filter(d => d > 0).length`. */
  function CountPositive(d: seq<real>): (n: nat)
    ensures n <= |d|
  {
    if |d| == 0 then 0 else (if d[0] > 0.0 then 1 else 0) + CountPositive(d[1..])
  }

  /** `diff.filter(d => d < 0).length`. */
  function CountNegative(d: seq<real>): (n: nat)
    ensures n <= |d|
  {
    if |d| == 0 then 0 else (if d[0] < 0.0 then 1 else 0) + CountNegative(d[1..])
  }

  /** Every element is counted exactly when every element is positive; some is counted exactly when some is. */
  lemma {:induction false} CountPositiveFacts(d: seq<real>)
    ensures CountPositive(d) == |d| <==> forall i :: 0 <= i < |d| ==> d[i] > 0.0
    ensures CountPositive(d) > 0 <==> exists i :: 0 <= i < |d| && d[i] > 0.0
  {
    if |d| > 0 {
      CountPositiveFacts(d[1..]);
      assert forall i :: 1 <= i < |d| ==> d[i] == d[1..][i - 1];
      if CountPositive(d) > 0 && d[0] <= 0.0 {
        var j :| 0 <= j < |d[1..]| && d[1..][j] > 0.0;
        assert d[j + 1] > 0.0;
      }
    }
  }

  lemma {:induction false} CountNegativeFacts(d: seq<real>)
    ensures CountNegative(d) == |d| <==> forall i :: 0 <= i < |d| ==> d[i] < 0.0
    ensures CountNegative(d) > 0 <==> exists i :: 0 <= i < |d| && d[i] < 0.0
  {
    if |d| > 0 {
      CountNegativeFacts(d[1..]);
      assert forall i :: 1 <= i < |d| ==> d[i] == d[1..][i - 1];
      if CountNegative(d) > 0 && d[0] >= 0.0 {
        var j :| 0 <= j < |d[1..]| && d[1..][j] < 0.0;
        assert d[j + 1] < 0.0;
      }
    }
  }

  /** Every step goes up (`data[i] < data[i + 1]`). */
  predicate AllRise(data: seq<real>) {
    forall i :: 0 <= i < |data| - 1 ==> data[i] < data[i + 1]
  }

  /** Every step goes down. */
  predicate AllFall(data: seq<real>) {
    forall i :: 0 <= i < |data| - 1 ==> data[i] > data[i + 1]
  }

  /** Some step goes up. */
  predicate SomeRise(data: seq<real>) {
    exists i :: 0 <= i < |data| - 1 && data[i] < data[i + 1]
  }

  /** Some step goes down. */
  predicate SomeFall(data: seq<real>) {
    exists i :: 0 <= i < |data| - 1 && data[i] > data[i + 1]
  }

  lemma AllRiseSteps(data: seq<real>)
    requires |data| >= 2
    ensures (forall i :: 0 <= i < |Diffs(data)| ==> Diffs(data)[i] > 0.0) <==> AllRise(data)
  {
    var d := Diffs(data);
    if !AllRise(data) {
      var i :| 0 <= i < |data| - 1 && !(data[i] < data[i + 1]);
      assert !(d[i] > 0.0);
    }
  }

  lemma SomeRiseSteps(data: seq<real>)
    requires |data| >= 2
    ensures (exists i :: 0 <= i < |Diffs(data)| && Diffs(data)[i] > 0.0) <==> SomeRise(data)
  {
    var d := Diffs(data);
    if SomeRise(data) {
      var i :| 0 <= i < |data| - 1 && data[i] < data[i + 1];
      assert d[i] > 0.0;
    }
  }

  lemma AllFallSteps(data: seq<real>)
    requires |data| >= 2
    ensures (forall i :: 0 <= i < |Diffs(data)| ==> Diffs(data)[i] < 0.0) <==> AllFall(data)
  {
    var d := Diffs(data);
    if !AllFall(data) {
      var i :| 0 <= i < |data| - 1 && !(data[i] > data[i + 1]);
      assert !(d[i] < 0.0);
    }
  }

  lemma SomeFallSteps(data: seq<real>)
    requires |data| >= 2
    ensures (exists i :: 0 <= i < |Diffs(data)| && Diffs(data)[i] < 0.0) <==> SomeFall(data)
  {
    var d := Diffs(data);
    if SomeFall(data) {
      var i :| 0 <= i < |data| - 1 && data[i] > data[i + 1];
      assert d[i] < 0.0;
    }
  }

  /** The two counts of `getTrendTag` in terms of the series' steps. */
  lemma DiffCounts(data: seq<real>)
    requires |data| >= 2
    ensures CountPositive(Diffs(data)) == |data| - 1 <==> AllRise(data)
    ensures CountNegative(Diffs(data)) == |data| - 1 <==> AllFall(data)
    ensures CountPositive(Diffs(data)) > 0 <==> SomeRise(data)
    ensures CountNegative(Diffs(data)) > 0 <==> SomeFall(data)
  {
    CountPositiveFacts(Diffs(data));
    CountNegativeFacts(Diffs(data));
    AllRiseSteps(data);
    SomeRiseSteps(data);
    AllFallSteps(data);
    SomeFallSteps(data);
  }

  /** `getTrendTag`. */
  function GetTrendTag(data: seq<real>): (t: TrendTag)
    ensures |data| < 2 ==> t == Stable
    ensures t == Improving <==> |data| >= 2 && AllRise(data)
    ensures t == Declining <==> |data| >= 2 && AllFall(data)
    ensures t == Volatile <==> SomeRise(data) && SomeFall(data)
  {
    if |data| < 2 then Stable
    else
      var d := Diffs(data);
      DiffCounts(data);
      var positive := CountPositive(d);
      var negative := CountNegative(d);
      if positive == |d| then Improving
      else if negative == |d| then Declining
      else if positive > 0 && negative > 0 then Volatile
      else Stable
  }

  /** A flat series is stable, and so is one that only rises after a flat step. */
  lemma StableExamples(c: real, n: nat)
    requires n >= 2
    ensures GetTrendTag(seq(n, _ => c)) == Stable
    ensures GetTrendTag([c, c, c + 1.0]) == Stable
  {
    var flat := seq(n, _ => c);
    assert !AllRise(flat) by { assert flat[0] == flat[1]; }
    assert !AllFall(flat) by { assert flat[0] == flat[1]; }
    assert !SomeRise(flat);
    var s := [c, c, c + 1.0];
    assert !AllRise(s) && !AllFall(s) by { assert s[0] == s[1]; }
    assert !SomeFall(s) by { assert s[0] <= s[1] <= s[2]; }
  }

  /** The tag of the series stored under `key`; a missing key reads as `[]`. */
  function SeriesTag(metrics: map<string, seq<real>>, key: string): (t: TrendTag)
    ensures key !in metrics ==> t == Stable
    ensures key in metrics ==> t == GetTrendTag(metrics[key])
  {
    GetTrendTag(if key in metrics then metrics[key] else [])
  }

  /** The tag name lower-cased, as `toLowerCase()` gives it. */
  function TagWord(t: TrendTag): (w: string)
    ensures w == Lower(TagName(t))
  {
    var w := match t
      case Improving => "improving"
      case Stable => "stable"
      case Declining => "declining"
      case Volatile => "volatile";
    LowerIs(TagName(t), w);
    w
  }

  /** The summary sentence around four tag words. */
  function Sentence(revenue: string, profit: string, margin: string, debt: string): (r: string)
    ensures StartsWith(r, "Revenue is " + revenue + ", ")
    ensures StartsWith(r[|"Revenue is " + revenue + ", "|..], "with net profit " + profit + ". ")
    ensures EndsWith(r, ("EBITDA margin is " + margin + ", ") + ("while debt-to-equity is " + debt + "."))
    ensures EndsWith(r, "while debt-to-equity is " + debt + ".")
  {
    var head := "Revenue is " + revenue + ", ";
    var profitPart := "with net profit " + profit + ". ";
    var marginPart := "EBITDA margin is " + margin + ", ";
    var last := "while debt-to-equity is " + debt + ".";
    ConcatParts(head, profitPart, marginPart, last);
    head + profitPart + marginPart + last
  }

  /**
   * The one-sentence summary: the revenue, net-profit, EBITDA-margin and
   * debt-to-equity tag words, each in its own place.
   */
  function GenerateSummary(metrics: map<string, seq<real>>): (r: string)
    ensures StartsWith(r, "Revenue is " + TagWord(SeriesTag(metrics, "revenue")) + ", ")
    ensures StartsWith(r[|"Revenue is " + TagWord(SeriesTag(metrics, "revenue")) + ", "|..],
                       "with net profit " + TagWord(SeriesTag(metrics, "net_profit")) + ". ")
    ensures EndsWith(r, ("EBITDA margin is " + TagWord(SeriesTag(metrics, "ebitda_margin")) + ", ")
                        + ("while debt-to-equity is " + TagWord(SeriesTag(metrics, "debt_to_equity")) + "."))
    ensures EndsWith(r, "while debt-to-equity is " + TagWord(SeriesTag(metrics, "debt_to_equity")) + ".")
  {
    Sentence(TagWord(SeriesTag(metrics, "revenue")), TagWord(SeriesTag(metrics, "net_profit")),
             TagWord(SeriesTag(metrics, "ebitda_margin")), TagWord(SeriesTag(metrics, "debt_to_equity")))
  }

  lemma MissingRevenueIsStable(metrics: map<string, seq<real>>)
    requires "revenue" !in metrics
    ensures StartsWith(GenerateSummary(metrics), "Revenue is " + TagWord(Stable) + ", ")
  {
  }

  datatype SummaryLine = SummaryLine(tag: string, color: string, text: string)

  /** `getTrendSummaryLine`. */
  function GetTrendSummaryLine(data: seq<real>): (r: SummaryLine)
    ensures r.tag in {"Green", "Amber", "Red"}
    ensures r.tag == "Green" <==> GetTrendTag(data) == Improving
    ensures r.tag == "Red" <==> GetTrendTag(data) == Declining
    ensures r.tag == "Amber" ==> r.color == "text-yellow-600"
  {
    match GetTrendTag(data)
    case Improving => SummaryLine("Green", "text-green-600", "Improving over time.")
    case Stable => SummaryLine("Amber", "text-yellow-600", "Stable trend.")
    case Volatile => SummaryLine("Amber", "text-yellow-600", "Volatile pattern.")
    case Declining => SummaryLine("Red", "text-red-600", "Declining over time.")
  }

  /** The line is green exactly for a strictly rising series and red exactly for a strictly falling one. */
  lemma SummaryLineColours(data: seq<real>)
    ensures GetTrendSummaryLine(data).tag == "Green" <==> |data| >= 2 && forall i :: 0 <= i < |data| - 1 ==> data[i] < data[i + 1]
    ensures GetTrendSummaryLine(data).tag == "Red" <==> |data| >= 2 && forall i :: 0 <= i < |data| - 1 ==> data[i] > data[i + 1]
  {
  }
}
