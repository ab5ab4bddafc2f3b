/**
 * The module-level series helpers of the stock price chart
 * (frontend/src/components/report/StockPriceChart.tsx): choosing a wider
 * fetch range when long moving averages are shown, normalising and merging
 * price points, the median bar gap, forward-filling weekday bars, the prefix
 * sums behind the trailing moving averages, and percentage returns.
 *
 * A calendar date is its day number (days since 1970-01-01, a Thursday).
 * For the four-digit years the chart shows, the order of these numbers is the
 * order of the `YYYY-MM-DD` strings the source compares, and one day later is
 * one `setUTCDate(+1)` step. Turning a date text into a day number is the
 * parameter `dayOf`.
 */
module PriceChart {
  import opened Numeric
  import opened Sorting
  import opened Wrappers
  import opened JsModel

  // ---------------------------------------------------------------------
  // Fetch ranges
  // ---------------------------------------------------------------------

  datatype Range = W1 | M1 | M3 | M6 | Y1 | Y2 | Y3 | Y5 | Max

  /** Position of a range from shortest to longest. */
  function Ord(r: Range): nat {
    match r
    case W1 => 0
    case M1 => 1
    case M3 => 2
    case M6 => 3
    case Y1 => 4
    case Y2 => 5
    case Y3 => 6
    case Y5 => 7
    case Max => 8
  }

  /** `POINTS_BY_RANGE`: approximate trading bars; `None` is the infinite bound of `MAX`. */
  function PointsByRange(r: Range): Option<nat> {
    match r
    case W1 => Some(5)
    case M1 => Some(22)
    case M3 => Some(66)
    case M6 => Some(126)
    case Y1 => Some(252)
    case Y2 => Some(504)
    case Y3 => Some(756)
    case Y5 => Some(1260)
    case Max => None
  }

  /** A longer range never has fewer bars: only `MAX` is unbounded, and the counts grow with the range. */
  lemma PointsGrowWithRange(a: Range, b: Range)
    requires Ord(a) < Ord(b)
    ensures PointsByRange(a).Some?
    ensures PointsByRange(b).Some? ==> PointsByRange(a).value < PointsByRange(b).value
    ensures PointsByRange(b).None? <==> b == Max
  {
  }

  /** The `bumpOne` table (a 200-bar or longer average). */
  function BumpOne(r: Range): Range {
    match r
    case W1 => M3
    case M1 => M6
    case M3 => Y1
    case M6 => Y2
    case Y1 => Y3
    case Y2 => Y5
    case Y3 => Y5
    case Y5 => Max
    case Max => Max
  }

  /** The `mid` table (a 100-bar average). */
  function Mid(r: Range): Range {
    match r
    case W1 => Y1
    case M1 => Y1
    case M3 => Y1
    case M6 => Y2
    case Y1 => Y3
    case Y2 => Y5
    case Y3 => Y5
    case Y5 => Max
    case Max => Max
  }

  /** The `small` table (a 50-bar average). */
  function Small(r: Range): Range {
    match r
    case W1 => M6
    case M1 => M6
    case M3 => Y1
    case M6 => Y1
    case Y1 => Y2
    case Y2 => Y3
    case Y3 => Y5
    case Y5 => Max
    case Max => Max
  }

  /** `chooseFetchRange` as written. */
  function ChooseFetchRange(range: Range, maxMA: int): (f: Range)
    ensures maxMA < 50 ==> f == range
    ensures Ord(f) >= Ord(range)
    ensures maxMA >= 50 && range != Max ==> Ord(f) > Ord(range)
  {
    if maxMA >= 200 then BumpOne(range)
    else if maxMA >= 100 then Mid(range)
    else if maxMA >= 50 then Small(range)
    else range
  }

  /**
   * As written, asking for a longer average can fetch a shorter history:
   * with the one-week (or one-month) range a 100-bar average fetches a year,
   * but a 200-bar average only three (or six) months.
   */
  lemma FetchRangeNotMonotone()
    ensures ChooseFetchRange(W1, 100) == Y1 && ChooseFetchRange(W1, 200) == M3
    ensures Ord(ChooseFetchRange(W1, 200)) < Ord(ChooseFetchRange(W1, 100))
    ensures PointsByRange(ChooseFetchRange(W1, 200)) == Some(66)
    ensures ChooseFetchRange(M1, 100) == Y1 && ChooseFetchRange(M1, 200) == M6
  {
  }

  /** The longer of two ranges. */
  function Wider(a: Range, b: Range): (w: Range)
    ensures Ord(w) >= Ord(a) && Ord(w) >= Ord(b)
    ensures w == a || w == b
  {
    if Ord(a) >= Ord(b) then a else b
  }

  /** `chooseFetchRange` with the 200-bar row never narrower than the 100-bar row. */
  function ChooseFetchRangeWidening(range: Range, maxMA: int): (f: Range)
    ensures maxMA < 50 ==> f == range
    ensures Ord(f) >= Ord(range)
    ensures maxMA < 200 ==> f == ChooseFetchRange(range, maxMA)
    ensures maxMA >= 200 ==> Ord(f) >= Ord(ChooseFetchRange(range, maxMA))
  {
    if maxMA >= 200 then Wider(BumpOne(range), Mid(range))
    else ChooseFetchRange(range, maxMA)
  }

  /** With the correction, a longer average never fetches a shorter history. */
  lemma FetchRangeWideningMonotone(range: Range, m1: int, m2: int)
    requires m1 <= m2
    ensures Ord(ChooseFetchRangeWidening(range, m1)) <= Ord(ChooseFetchRangeWidening(range, m2))
  {
  }

  /**
   * `firstVisibleIndex` in `loadStock`: the index of the first bar the
   * range shows in a history of `fullLength` bars (`MAX` shows them all).
   */
  function FirstVisibleIndex(r: Range, fullLength: nat): (i: nat)
    ensures PointsByRange(r).None? ==> i == 0
    ensures PointsByRange(r).Some? ==> i + PointsByRange(r).value >= fullLength
    ensures PointsByRange(r).Some? && fullLength >= PointsByRange(r).value
            ==> i + PointsByRange(r).value == fullLength
    ensures PointsByRange(r).Some? && fullLength <= PointsByRange(r).value ==> i == 0
    ensures i <= fullLength
  {
    match PointsByRange(r)
    case None => 0
    case Some(visible) => if fullLength > visible then fullLength - visible else 0
  }

  /** `loadStock`'s lookback guard: fewer than `maxMA` bars before the first visible one trigger a `MAX` fetch. */
  predicate NeedsMaxFetch(r: Range, fullLength: nat, maxMA: int) {
    FirstVisibleIndex(r, fullLength) < maxMA
  }

  /**
   * The guard always fires for the `MAX` range with any positive average,
   * and never without one; a history with at least `maxMA` bars more than
   * the range shows never fires it.
   */
  lemma NeedsMaxFetchCases(r: Range, fullLength: nat, maxMA: int)
    ensures r == Max && maxMA > 0 ==> NeedsMaxFetch(r, fullLength, maxMA)
    ensures maxMA <= 0 ==> !NeedsMaxFetch(r, fullLength, maxMA)
    ensures PointsByRange(r).Some? && fullLength >= PointsByRange(r).value + maxMA
            ==> !NeedsMaxFetch(r, fullLength, maxMA)
  {
  }

  /**
   * What the narrower fetch costs: when the merged history holds the bars
   * of the range fetched, the one-week and one-month ranges under a 200-bar
   * average come up short and trigger the extra `MAX` request, while the
   * corrected choice (one year) carries the lookback itself.
   */
  lemma NarrowFetchNeedsMaxRequest()
    ensures NeedsMaxFetch(W1, PointsByRange(ChooseFetchRange(W1, 200)).value, 200)
    ensures NeedsMaxFetch(M1, PointsByRange(ChooseFetchRange(M1, 200)).value, 200)
    ensures !NeedsMaxFetch(W1, PointsByRange(ChooseFetchRangeWidening(W1, 200)).value, 200)
    ensures !NeedsMaxFetch(M1, PointsByRange(ChooseFetchRangeWidening(M1, 200)).value, 200)
  {
  }

  // ---------------------------------------------------------------------
  // Points
  // ---------------------------------------------------------------------

  /** A point as fetched: a date text, a close that may be non-finite, an optional volume. */
  datatype RawPoint = RawPoint(date: string, close: Float, volume: Option<Float>)

  /** A normalised point: its day, a finite close, and a volume. */
  datatype Point = Point(date: int, close: real, volume: Float)

  /** Turns a date text into its day; `None` where `toISOString` throws on an invalid date. */
  type DayFn = string -> Option<int>

  /** The sort key that puts earlier days first under `SortDesc`. */
  function EarlierFirst(p: Point): int {
    -p.date
  }

  /** Dates never decrease. */
  predicate Ascending(s: seq<Point>) {
    forall i, j :: 0 <= i < j < |s| ==> s[i].date <= s[j].date
  }

  /** Dates strictly increase. */
  predicate StrictlyAscending(s: seq<Point>) {
    forall i, j :: 0 <= i < j < |s| ==> s[i].date < s[j].date
  }

  lemma AscendingIsSorted(s: seq<Point>)
    ensures Ascending(s) <==> SortedDesc(s, EarlierFirst)
  {
  }

  lemma StrictlyAscendingIsDistinctSorted(s: seq<Point>)
    ensures StrictlyAscending(s) <==> SortedDesc(s, EarlierFirst) && DistinctKeys(s, EarlierFirst)
  {
  }

  /** `Number(p.volume || 0)`: a missing, zero or NaN volume becomes 0. */
  function VolumeOf(v: Option<Float>): (r: Float)
    ensures !r.NaN?
    ensures v.Some? && TruthyNum(v.value) ==> r == v.value
    ensures v.Some? && !TruthyNum(v.value) ==> r == Finite(0.0)
    ensures v.None? ==> r == Finite(0.0)
  {
    if v.Some? && TruthyNum(v.value) then v.value else Finite(0.0)
  }

  /** The normalised form of one raw point with a finite close and a valid date. */
  function Normalized(dayOf: DayFn, p: RawPoint): (q: Point)
    requires p.close.Finite? && dayOf(p.date).Some?
    ensures q.close == p.close.v && q.date == dayOf(p.date).value
  {
    Point(dayOf(p.date).value, p.close.v, VolumeOf(p.volume))
  }

  /** Every finite-close point has a valid date. */
  predicate DatesValid(dayOf: DayFn, arr: seq<RawPoint>) {
    forall i :: 0 <= i < |arr| && arr[i].close.Finite? ==> dayOf(arr[i].date).Some?
  }

  /** The filter and map of `normalizePoints`, before the sort. */
  function Cleaned(dayOf: DayFn, arr: seq<RawPoint>): (r: Result<seq<Point>, string>)
    ensures r.Success? <==> DatesValid(dayOf, arr)
  {
    if |arr| == 0 then Success([])
    else
      assert forall i :: 1 <= i < |arr| ==> arr[1..][i - 1] == arr[i];
      if !arr[0].close.Finite? then Cleaned(dayOf, arr[1..])
      else if dayOf(arr[0].date).None? then Failure("Invalid time value")
      else
        var rest :- Cleaned(dayOf, arr[1..]);
        Success([Normalized(dayOf, arr[0])] + rest)
  }

  /** `Cleaned` keeps exactly the finite-close points, normalised, in order. */
  lemma {:induction false} CleanedContents(dayOf: DayFn, arr: seq<RawPoint>)
    requires DatesValid(dayOf, arr)
    ensures forall i :: 0 <= i < |arr| && arr[i].close.Finite? ==>
      Normalized(dayOf, arr[i]) in Cleaned(dayOf, arr).value
    ensures forall q :: q in Cleaned(dayOf, arr).value ==>
      exists i :: 0 <= i < |arr| && arr[i].close.Finite? && q == Normalized(dayOf, arr[i])
  {
    if |arr| > 0 {
      var tail := arr[1..];
      assert forall i :: 1 <= i < |arr| ==> tail[i - 1] == arr[i];
      assert DatesValid(dayOf, tail) by {
        forall i | 0 <= i < |tail| && tail[i].close.Finite? ensures dayOf(tail[i].date).Some? {
          assert tail[i] == arr[i + 1];
        }
      }
      CleanedContents(dayOf, tail);
      forall q | q in Cleaned(dayOf, arr).value
        ensures exists i :: 0 <= i < |arr| && arr[i].close.Finite? && q == Normalized(dayOf, arr[i])
      {
        if q in Cleaned(dayOf, tail).value {
          var i :| 0 <= i < |tail| && tail[i].close.Finite? && q == Normalized(dayOf, tail[i]);
          assert arr[i + 1] == tail[i];
        } else {
          assert q == Normalized(dayOf, arr[0]);
        }
      }
    }
  }

  /**
   * The stable sort by date of `normalizePoints` and `mergeByDate`: the same
   * points, dates ascending, and points of one day in their input order.
   */
  function SortByDate(s: seq<Point>): (r: seq<Point>)
    ensures multiset(r) == multiset(s)
    ensures Ascending(r)
    ensures forall k :: WithKey(r, EarlierFirst, k) == WithKey(s, EarlierFirst, k)
  {
    var r := SortDesc(s, EarlierFirst);
    SortDescSorted(s, EarlierFirst);
    AscendingIsSorted(r);
    forall k ensures WithKey(r, EarlierFirst, k) == WithKey(s, EarlierFirst, k) {
      SortDescStable(s, EarlierFirst, k);
    }
    r
  }

  /**
   * `normalizePoints`: points with a non-finite close are dropped, the rest
   * normalised and sorted by date; the sort is stable, so points of the same
   * day keep their input order. An invalid date among the kept points makes
   * the call throw.
   */
  function NormalizePoints(dayOf: DayFn, arr: seq<RawPoint>): (r: Result<seq<Point>, string>)
    ensures r.Success? <==> DatesValid(dayOf, arr)
    ensures r.Success? ==> r.value == SortByDate(Cleaned(dayOf, arr).value)
  {
    var c :- Cleaned(dayOf, arr);
    Success(SortByDate(c))
  }

  /** A normalised series holds exactly the finite-close input points. */
  lemma NormalizeKeepsFinite(dayOf: DayFn, arr: seq<RawPoint>, q: Point)
    requires DatesValid(dayOf, arr)
    ensures q in NormalizePoints(dayOf, arr).value <==>
      exists i :: 0 <= i < |arr| && arr[i].close.Finite? && q == Normalized(dayOf, arr[i])
  {
    CleanedContents(dayOf, arr);
    var r := NormalizePoints(dayOf, arr).value;
    assert q in r <==> q in multiset(r);
    assert q in Cleaned(dayOf, arr).value <==> q in multiset(Cleaned(dayOf, arr).value);
  }

  // ---------------------------------------------------------------------
  // Merging
  // ---------------------------------------------------------------------

  /** The days that occur in a series. */
  function DatesOf(s: seq<Point>): set<int> {
    set i | 0 <= i < |s| :: s[i].date
  }

  lemma DatesOfCons(x: Point, s: seq<Point>)
    ensures DatesOf([x] + s) == {x.date} + DatesOf(s)
  {
    var c := [x] + s;
    assert c[0] == x;
    assert forall i :: 0 <= i < |s| ==> c[i + 1] == s[i];
    forall d | d in DatesOf(c) ensures d in {x.date} + DatesOf(s) {
      var i :| 0 <= i < |c| && c[i].date == d;
      if i > 0 { assert s[i - 1] == c[i]; }
    }
  }

  /** Two series with the same elements have the same days. */
  lemma DatesOfPermutation(a: seq<Point>, b: seq<Point>)
    requires multiset(a) == multiset(b)
    ensures DatesOf(a) == DatesOf(b)
  {
    forall d | d in DatesOf(a) ensures d in DatesOf(b) {
      var i :| 0 <= i < |a| && a[i].date == d;
      assert a[i] in multiset(b);
      var j :| 0 <= j < |b| && b[j] == a[i];
    }
    forall d | d in DatesOf(b) ensures d in DatesOf(a) {
      var j :| 0 <= j < |b| && b[j].date == d;
      assert b[j] in multiset(a);
      var i :| 0 <= i < |a| && a[i] == b[j];
    }
  }

  /** The last point of `xs` on day `d`: the one `Map.set` leaves in place. */
  function LastWith(xs: seq<Point>, d: int): (p: Point)
    requires d in DatesOf(xs)
    ensures p.date == d
    ensures exists i :: 0 <= i < |xs| && xs[i] == p && forall j :: i < j < |xs| ==> xs[j].date != d
  {
    if xs[0].date == d && d !in DatesOf(xs[1..]) then
      assert forall j :: 0 < j < |xs| ==> xs[j] == xs[1..][j - 1];
      xs[0]
    else
      var p := LastWith(xs[1..], d);
      assert forall j :: 0 < j < |xs| ==> xs[j] == xs[1..][j - 1];
      ghost var i :| 0 <= i < |xs[1..]| && xs[1..][i] == p && forall j :: i < j < |xs[1..]| ==> xs[1..][j].date != d;
      assert xs[i + 1] == p;
      p
  }

  /** The points `Map.set` leaves in the map: for each day, the last point of that day. */
  function KeepLast(xs: seq<Point>): (r: seq<Point>)
    ensures forall i :: 0 <= i < |r| ==> r[i] in xs
  {
    if |xs| == 0 then []
    else if xs[0].date in DatesOf(xs[1..]) then KeepLast(xs[1..])
    else [xs[0]] + KeepLast(xs[1..])
  }

  /** Keeping the last point of each day keeps every day. */
  lemma {:induction false} KeepLastDates(xs: seq<Point>)
    ensures DatesOf(KeepLast(xs)) == DatesOf(xs)
  {
    if |xs| > 0 {
      var tail := xs[1..];
      KeepLastDates(tail);
      assert [xs[0]] + tail == xs;
      DatesOfCons(xs[0], tail);
      if xs[0].date !in DatesOf(tail) {
        DatesOfCons(xs[0], KeepLast(tail));
      }
    }
  }

  /** Keeping the last point of each day leaves one point per day. */
  lemma {:induction false} KeepLastDistinct(xs: seq<Point>)
    ensures DistinctKeys(KeepLast(xs), EarlierFirst)
  {
    if |xs| > 0 {
      var tail := xs[1..];
      KeepLastDistinct(tail);
      if xs[0].date !in DatesOf(tail) {
        var rest := KeepLast(tail);
        KeepLastDates(tail);
        var r := [xs[0]] + rest;
        assert forall i :: 0 < i < |r| ==> r[i] == rest[i - 1] && r[i].date in DatesOf(rest);
      }
    }
  }

  /** Each kept point is the last point of its day. */
  lemma {:induction false} KeepLastIsLast(xs: seq<Point>)
    ensures forall i :: 0 <= i < |KeepLast(xs)| ==>
      KeepLast(xs)[i].date in DatesOf(xs) && KeepLast(xs)[i] == LastWith(xs, KeepLast(xs)[i].date)
  {
    if |xs| > 0 {
      var tail := xs[1..];
      KeepLastIsLast(tail);
      var rest := KeepLast(tail);
      assert [xs[0]] + tail == xs;
      DatesOfCons(xs[0], tail);
      var r := KeepLast(xs);
      forall i | 0 <= i < |r| ensures r[i].date in DatesOf(xs) && r[i] == LastWith(xs, r[i].date) {
        if xs[0].date in DatesOf(tail) {
          assert r[i] == rest[i];
        } else if i > 0 {
          assert r[i] == rest[i - 1];
        }
      }
    }
  }

  /** The lists of a merge, skipping the null ones, concatenated in order. */
  function Concat(lists: seq<Option<seq<Point>>>): seq<Point> {
    if |lists| == 0 then []
    else (if lists[0].Some? then lists[0].value else []) + Concat(lists[1..])
  }

  /**
   * `mergeByDate`: one point per day, the one from the latest list (and the
   * latest within it), sorted by date; null lists are skipped.
   */
  function MergeByDate(lists: seq<Option<seq<Point>>>): (r: seq<Point>)
    ensures StrictlyAscending(r)
    ensures DatesOf(r) == DatesOf(Concat(lists))
    ensures forall i :: 0 <= i < |r| ==> r[i].date in DatesOf(Concat(lists)) && r[i] == LastWith(Concat(lists), r[i].date)
  {
    var all := Concat(lists);
    MergedAscending(all);
    MergedDays(all);
    MergedLast(all);
    SortByDate(KeepLast(all))
  }

  lemma MergedAscending(all: seq<Point>)
    ensures StrictlyAscending(SortByDate(KeepLast(all)))
  {
    var kept := KeepLast(all);
    KeepLastDistinct(all);
    var r := SortByDate(kept);
    assert r == SortDesc(kept, EarlierFirst);
    SortKeepsDistinct(kept, EarlierFirst);
    AscendingIsSorted(r);
    StrictlyAscendingIsDistinctSorted(r);
  }

  lemma MergedDays(all: seq<Point>)
    ensures DatesOf(SortByDate(KeepLast(all))) == DatesOf(all)
  {
    KeepLastDates(all);
    DatesOfPermutation(SortByDate(KeepLast(all)), KeepLast(all));
  }

  lemma MergedLast(all: seq<Point>)
    ensures forall i :: 0 <= i < |SortByDate(KeepLast(all))| ==>
      SortByDate(KeepLast(all))[i].date in DatesOf(all)
      && SortByDate(KeepLast(all))[i] == LastWith(all, SortByDate(KeepLast(all))[i].date)
  {
    var kept := KeepLast(all);
    var r := SortByDate(kept);
    KeepLastIsLast(all);
    forall i | 0 <= i < |r| ensures r[i].date in DatesOf(all) && r[i] == LastWith(all, r[i].date) {
      assert r[i] in multiset(kept);
      var j :| 0 <= j < |kept| && kept[j] == r[i];
    }
  }

  /** A point of the last list is never overridden by an earlier list's point of the same day. */
  lemma MergeLaterListWins(lists: seq<Option<seq<Point>>>, later: seq<Point>, p: Point)
    requires p in later && forall q :: q in later && q.date == p.date ==> q == p
    ensures p in MergeByDate(lists + [Some(later)])
  {
    var all := lists + [Some(later)];
    ConcatSnoc(lists, later);
    var c := Concat(all);
    LaterPointIsLast(Concat(lists), later, p);
    var r := MergeByDate(all);
    assert p.date in DatesOf(r);
    var i :| 0 <= i < |r| && r[i].date == p.date;
    assert r[i] == LastWith(c, p.date);
  }

  /** A point that is the only one of its day in the later part is the last of that day overall. */
  lemma LaterPointIsLast(front: seq<Point>, later: seq<Point>, p: Point)
    requires p in later && forall q :: q in later && q.date == p.date ==> q == p
    ensures p.date in DatesOf(front + later)
    ensures LastWith(front + later, p.date) == p
  {
    var c := front + later;
    var n := |front|;
    var k :| 0 <= k < |later| && later[k] == p;
    assert c[n + k] == p;
    LastWithAfter(c, n + k);
    var iw :| n + k <= iw < |c| && c[iw] == LastWith(c, p.date);
    assert c[iw] == later[iw - n];
  }

  /** The last point of a day sits at or after any point of that day. */
  lemma LastWithAfter(xs: seq<Point>, k: int)
    requires 0 <= k < |xs|
    ensures exists j :: k <= j < |xs| && xs[j] == LastWith(xs, xs[k].date)
  {
    var d := xs[k].date;
    var i :| 0 <= i < |xs| && xs[i] == LastWith(xs, d) && forall j :: i < j < |xs| ==> xs[j].date != d;
    assert !(i < k);
  }

  lemma {:induction false} ConcatSnoc(lists: seq<Option<seq<Point>>>, last: seq<Point>)
    ensures Concat(lists + [Some(last)]) == Concat(lists) + last
  {
    if |lists| == 0 {
      assert lists + [Some(last)] == [Some(last)];
      assert [Some(last)][1..] == [];
    } else {
      var l := lists + [Some(last)];
      var h := if lists[0].Some? then lists[0].value else [];
      assert l[0] == lists[0];
      assert l[1..] == lists[1..] + [Some(last)];
      ConcatSnoc(lists[1..], last);
      assert Concat(l) == h + (Concat(lists[1..]) + last);
      assert h + (Concat(lists[1..]) + last) == (h + Concat(lists[1..])) + last;
    }
  }

  // ---------------------------------------------------------------------
  // Median gap
  // ---------------------------------------------------------------------

  predicate SortedAsc(s: seq<real>) {
    forall i, j :: 0 <= i < j < |s| ==> s[i] <= s[j]
  }

  function InsertAsc(x: real, s: seq<real>): (r: seq<real>)
    ensures |r| == |s| + 1
    ensures multiset(r) == multiset(s) + multiset{x}
  {
    if |s| == 0 || x <= s[0] then [x] + s
    else
      assert s == [s[0]] + s[1..];
      [s[0]] + InsertAsc(x, s[1..])
  }

  /** `[...arr].sort((x, y) => x - y)`. */
  function SortAsc(s: seq<real>): (r: seq<real>)
    ensures |r| == |s|
    ensures multiset(r) == multiset(s)
  {
    if |s| == 0 then []
    else
      assert s == [s[0]] + s[1..];
      InsertAsc(s[0], SortAsc(s[1..]))
  }

  lemma {:induction false} InsertAscSorted(x: real, s: seq<real>)
    requires SortedAsc(s)
    ensures SortedAsc(InsertAsc(x, s))
  {
    if |s| > 0 && x > s[0] {
      var t := InsertAsc(x, s[1..]);
      InsertAscSorted(x, s[1..]);
      forall j | 0 <= j < |t| ensures s[0] <= t[j] {
        assert t[j] in multiset(s[1..]) + multiset{x};
        if t[j] != x {
          assert t[j] in s[1..];
        }
      }
    }
  }

  lemma {:induction false} SortAscSorted(s: seq<real>)
    ensures SortedAsc(SortAsc(s))
  {
    if |s| > 0 {
      SortAscSorted(s[1..]);
      InsertAscSorted(s[0], SortAsc(s[1..]));
    }
  }

  /** Sorting an already ascending list leaves it as it is. */
  lemma {:induction false} SortAscOfSorted(s: seq<real>)
    requires SortedAsc(s)
    ensures SortAsc(s) == s
  {
    if |s| > 0 {
      SortAscOfSorted(s[1..]);
      assert SortAsc(s) == InsertAsc(s[0], s[1..]);
      if |s| > 1 {
        assert s[0] <= s[1..][0];
      }
      assert s == [s[0]] + s[1..];
    }
  }

  /** `median`: 0 for no values; otherwise a value between the smallest and the largest. */
  function Median(a: seq<real>): (r: real)
    ensures |a| == 0 ==> r == 0.0
    ensures |a| > 0 ==> exists i :: 0 <= i < |a| && a[i] <= r
    ensures |a| > 0 ==> exists j :: 0 <= j < |a| && r <= a[j]
  {
    if |a| == 0 then 0.0
    else
      var s := SortAsc(a);
      var m := |s| / 2;
      SortAscSorted(a);
      assert s[m] in multiset(a);
      assert m > 0 ==> s[m - 1] in multiset(a);
      assert m > 0 ==> s[m - 1] <= s[m];
      if |s| % 2 == 1 then s[m] else (s[m - 1] + s[m]) / 2.0
  }

  /** On an ascending list the median is the middle value, or the mean of the two middle values. */
  lemma MedianOfSorted(a: seq<real>)
    requires SortedAsc(a) && |a| > 0
    ensures |a| % 2 == 1 ==> Median(a) == a[|a| / 2]
    ensures |a| % 2 == 0 ==> Median(a) == (a[|a| / 2 - 1] + a[|a| / 2]) / 2.0
  {
    SortAscOfSorted(a);
  }

  /** The day gaps between consecutive points. */
  function Gaps(pts: seq<Point>): (g: seq<real>)
    requires |pts| >= 2
    ensures |g| == |pts| - 1
    ensures forall i :: 0 <= i < |g| ==> g[i] == (pts[i + 1].date - pts[i].date) as real
  {
    seq(|pts| - 1, i requires 0 <= i < |pts| - 1 => (pts[i + 1].date - pts[i].date) as real)
  }

  /** `medianGapDays`: 1 for fewer than two points, and at least 1 for distinct ascending days. */
  function MedianGapDays(pts: seq<Point>): (r: real)
    ensures |pts| < 2 ==> r == 1.0
    ensures StrictlyAscending(pts) ==> r >= 1.0
  {
    if |pts| < 2 then 1.0
    else
      var g := Gaps(pts);
      assert StrictlyAscending(pts) ==> forall i :: 0 <= i < |g| ==> g[i] >= 1.0 by {
        if StrictlyAscending(pts) {
          forall i | 0 <= i < |g| ensures g[i] >= 1.0 {
            assert pts[i].date < pts[i + 1].date;
          }
        }
      }
      Median(g)
  }

  /** A series with one point per consecutive day has median gap exactly 1. */
  lemma ConsecutiveDaysGap(pts: seq<Point>)
    requires |pts| >= 2
    requires forall i :: 0 <= i < |pts| - 1 ==> pts[i + 1].date == pts[i].date + 1
    ensures MedianGapDays(pts) == 1.0
  {
    var g := Gaps(pts);
    assert forall i :: 0 <= i < |g| ==> g[i] == 1.0;
  }

  // ---------------------------------------------------------------------
  // Weekday expansion
  // ---------------------------------------------------------------------

  /** `getUTCDay()`: 0 is Sunday; day 0 (1970-01-01) was a Thursday. */
  function DayOfWeek(d: int): (w: int)
    ensures 0 <= w < 7
  {
    (d + 4) % 7
  }

  predicate IsWeekday(d: int) {
    DayOfWeek(d) != 0 && DayOfWeek(d) != 6
  }

  /** The filler points the inner loop pushes for the days strictly between `lo` and `hi`. */
  function FillDays(lo: int, hi: int, close: real, volume: Float): (r: seq<Point>)
    ensures forall i :: 0 <= i < |r| ==> lo < r[i].date < hi && IsWeekday(r[i].date)
    ensures forall i :: 0 <= i < |r| ==> r[i].close == close && r[i].volume == volume
    ensures StrictlyAscending(r)
    ensures forall d :: (lo < d < hi && IsWeekday(d) ==> d in DatesOf(r))
    decreases hi - lo
  {
    if lo + 1 >= hi then []
    else
      var rest := FillDays(lo + 1, hi, close, volume);
      if !IsWeekday(lo + 1) then rest
      else
        var p := Point(lo + 1, close, volume);
        var r := [p] + rest;
        assert forall i :: 0 < i < |r| ==> r[i] == rest[i - 1];
        AppendStrictlyAscending([p], rest);
        DatesOfCons(p, rest);
        r
  }

  /** The points `expandToDailyWeekdays` pushes after `prev`, for the remaining points `rest`. */
  function ExpandFrom(prev: Point, rest: seq<Point>): seq<Point>
    requires StrictlyAscending([prev] + rest)
    decreases |rest|
  {
    if |rest| == 0 then []
    else
      assert StrictlyAscending(rest) by {
        forall i, j | 0 <= i < j < |rest| ensures rest[i].date < rest[j].date {
          assert ([prev] + rest)[i + 1] == rest[i] && ([prev] + rest)[j + 1] == rest[j];
        }
      }
      assert [rest[0]] + rest[1..] == rest;
      FillDays(prev.date, rest[0].date, prev.close, prev.volume) + [rest[0]] + ExpandFrom(rest[0], rest[1..])
  }

  /**
   * `expandToDailyWeekdays`; the source's inner loop only ends when it
   * reaches the next point's date, so the dates must strictly increase.
   */
  function ExpandToDailyWeekdays(pts: seq<Point>): (r: seq<Point>)
    requires StrictlyAscending(pts)
    ensures |pts| < 2 ==> r == pts
    ensures |pts| >= 1 ==> |r| >= 1 && r[0] == pts[0]
  {
    if |pts| < 2 then pts
    else
      assert [pts[0]] + pts[1..] == pts;
      [pts[0]] + ExpandFrom(pts[0], pts[1..])
  }

  /** A point lies strictly between two consecutive input points and repeats the earlier one's close and volume. */
  predicate FilledFrom(q: Point, pts: seq<Point>) {
    exists i :: 0 <= i < |pts| - 1 && pts[i].date < q.date < pts[i + 1].date
      && q.close == pts[i].close && q.volume == pts[i].volume
  }

  lemma AppendStrictlyAscending(a: seq<Point>, b: seq<Point>)
    requires StrictlyAscending(a) && StrictlyAscending(b)
    requires forall i, j :: 0 <= i < |a| && 0 <= j < |b| ==> a[i].date < b[j].date
    ensures StrictlyAscending(a + b)
  {
    var c := a + b;
    forall i, j | 0 <= i < j < |c| ensures c[i].date < c[j].date {
      if j < |a| {
        assert c[i] == a[i] && c[j] == a[j];
      } else if i >= |a| {
        assert c[i] == b[i - |a|] && c[j] == b[j - |a|];
      } else {
        assert c[i] == a[i] && c[j] == b[j - |a|];
      }
    }
  }

  /** Dropping the first point of a strictly ascending series keeps it strictly ascending. */
  lemma RestAscending(prev: Point, rest: seq<Point>)
    requires StrictlyAscending([prev] + rest) && |rest| > 0
    ensures StrictlyAscending(rest)
    ensures prev.date < rest[0].date
  {
    var all := [prev] + rest;
    assert all[0] == prev && all[1] == rest[0];
    forall i, j | 0 <= i < j < |rest| ensures rest[i].date < rest[j].date {
      assert all[i + 1] == rest[i] && all[j + 1] == rest[j];
    }
  }

  /** One step of `ExpandFrom`: the fillers up to the next point, the next point, then the rest. */
  lemma ExpandFromStep(prev: Point, rest: seq<Point>)
    requires StrictlyAscending([prev] + rest) && |rest| > 0
    ensures StrictlyAscending([rest[0]] + rest[1..])
    ensures prev.date < rest[0].date
    ensures ExpandFrom(prev, rest)
      == FillDays(prev.date, rest[0].date, prev.close, prev.volume) + [rest[0]] + ExpandFrom(rest[0], rest[1..])
  {
    RestAscending(prev, rest);
    assert [rest[0]] + rest[1..] == rest;
  }

  /** Fillers, then the next point, then what follows it, ascend when each part lies in its own date window. */
  lemma OrderStep(lo: int, fill: seq<Point>, next: Point, after: seq<Point>, hi: int)
    requires lo < next.date <= hi
    requires StrictlyAscending(fill) && forall k :: 0 <= k < |fill| ==> lo < fill[k].date < next.date
    requires StrictlyAscending(after) && forall k :: 0 <= k < |after| ==> next.date < after[k].date <= hi
    ensures StrictlyAscending(fill + [next] + after)
    ensures forall k :: 0 <= k < |fill + [next] + after| ==> lo < (fill + [next] + after)[k].date <= hi
  {
    AppendStrictlyAscending(fill, [next]);
    AppendStrictlyAscending(fill + [next], after);
  }

  /** What `ExpandFrom` produces lies after `prev`, up to the last point, in strictly ascending order. */
  lemma {:induction false} ExpandFromOrder(prev: Point, rest: seq<Point>)
    requires StrictlyAscending([prev] + rest) && |rest| > 0
    decreases |rest|
    ensures StrictlyAscending(ExpandFrom(prev, rest))
    ensures forall i :: 0 <= i < |ExpandFrom(prev, rest)| ==>
      prev.date < ExpandFrom(prev, rest)[i].date <= rest[|rest| - 1].date
  {
    ExpandFromStep(prev, rest);
    var next := rest[0];
    var tail := rest[1..];
    var fill := FillDays(prev.date, next.date, prev.close, prev.volume);
    var after := ExpandFrom(next, tail);
    var last := rest[|rest| - 1];
    if |tail| > 0 {
      ExpandFromOrder(next, tail);
      assert tail[|tail| - 1] == last;
    } else {
      assert after == [] && last == next;
    }
    RestAscending(prev, rest);
    assert next.date <= last.date by {
      assert rest[0].date <= rest[|rest| - 1].date;
    }
    OrderStep(prev.date, fill, next, after, last.date);
  }

  /** The filler at a date strictly between the first two points, carrying the first one's close and volume, is filled from the series. */
  lemma FilledFromFirst(q: Point, prev: Point, xs: seq<Point>)
    requires |xs| > 0 && prev.date < q.date < xs[0].date
    requires q.close == prev.close && q.volume == prev.volume
    ensures FilledFrom(q, [prev] + xs)
  {
    assert ([prev] + xs)[0] == prev && ([prev] + xs)[1] == xs[0];
  }

  /** A point filled from a series is filled from it with one more point in front. */
  lemma FilledFromShift(q: Point, prev: Point, xs: seq<Point>)
    requires FilledFrom(q, xs)
    ensures FilledFrom(q, [prev] + xs)
  {
    var i :| 0 <= i < |xs| - 1 && xs[i].date < q.date < xs[i + 1].date
      && q.close == xs[i].close && q.volume == xs[i].volume;
    assert ([prev] + xs)[i + 1] == xs[i] && ([prev] + xs)[i + 2] == xs[i + 1];
  }

  /** The contents of fillers, next point and what follows, given each part's own contents. */
  lemma ContentsStep(prev: Point, next: Point, tail: seq<Point>, fill: seq<Point>, after: seq<Point>)
    requires forall k :: 0 <= k < |fill| ==>
      (IsWeekday(fill[k].date) && prev.date < fill[k].date < next.date
       && fill[k].close == prev.close && fill[k].volume == prev.volume)
    requires forall p :: p in tail ==> p in after
    requires forall q :: q in after ==> q in tail || (IsWeekday(q.date) && FilledFrom(q, [next] + tail))
    ensures forall p :: p in [next] + tail ==> p in fill + [next] + after
    ensures forall q :: q in fill + [next] + after ==>
      q in [next] + tail || (IsWeekday(q.date) && FilledFrom(q, [prev] + ([next] + tail)))
  {
    var rest := [next] + tail;
    forall q | q in fill + [next] + after
      ensures q in rest || (IsWeekday(q.date) && FilledFrom(q, [prev] + rest))
    {
      if q in fill {
        var k :| 0 <= k < |fill| && fill[k] == q;
        FilledFromFirst(q, prev, rest);
      } else if q in after && q !in tail {
        FilledFromShift(q, prev, rest);
      }
    }
  }

  /** `ExpandFrom` keeps every point, and everything else it adds is a weekday filler. */
  lemma {:induction false} ExpandFromContents(prev: Point, rest: seq<Point>)
    requires StrictlyAscending([prev] + rest) && |rest| > 0
    decreases |rest|
    ensures forall p :: p in rest ==> p in ExpandFrom(prev, rest)
    ensures forall q :: q in ExpandFrom(prev, rest) ==> q in rest || (IsWeekday(q.date) && FilledFrom(q, [prev] + rest))
  {
    ExpandFromStep(prev, rest);
    var next := rest[0];
    var tail := rest[1..];
    var fill := FillDays(prev.date, next.date, prev.close, prev.volume);
    var after := ExpandFrom(next, tail);
    assert rest == [next] + tail;
    if |tail| > 0 {
      ExpandFromContents(next, tail);
    } else {
      assert after == [];
    }
    ContentsStep(prev, next, tail, fill, after);
  }

  /** Fillers, next point and what follows cover a window when each part covers its own. */
  lemma CoversStep(lo: int, fill: seq<Point>, next: Point, after: seq<Point>, hi: int)
    requires forall d :: lo < d < next.date && IsWeekday(d) ==> d in DatesOf(fill)
    requires forall d :: next.date < d <= hi && IsWeekday(d) ==> d in DatesOf(after)
    ensures forall d :: lo < d <= hi && IsWeekday(d) ==> d in DatesOf(fill + [next] + after)
  {
    var r := fill + [next] + after;
    forall d | lo < d <= hi && IsWeekday(d) ensures d in DatesOf(r) {
      if d < next.date {
        var k :| 0 <= k < |fill| && fill[k].date == d;
        assert r[k] == fill[k];
      } else if d == next.date {
        assert r[|fill|] == next;
      } else {
        var k :| 0 <= k < |after| && after[k].date == d;
        assert r[|fill| + 1 + k] == after[k];
      }
    }
  }

  /** `ExpandFrom` covers every weekday after `prev` up to the last point. */
  lemma {:induction false} ExpandFromCovers(prev: Point, rest: seq<Point>)
    requires StrictlyAscending([prev] + rest) && |rest| > 0
    decreases |rest|
    ensures forall d :: prev.date < d <= rest[|rest| - 1].date && IsWeekday(d) ==> d in DatesOf(ExpandFrom(prev, rest))
  {
    ExpandFromStep(prev, rest);
    var next := rest[0];
    var tail := rest[1..];
    var fill := FillDays(prev.date, next.date, prev.close, prev.volume);
    var after := ExpandFrom(next, tail);
    var last := rest[|rest| - 1];
    if |tail| > 0 {
      ExpandFromCovers(next, tail);
      assert tail[|tail| - 1] == last;
    } else {
      assert last == next;
    }
    CoversStep(prev.date, fill, next, after, last.date);
  }

  /**
   * The expanded series keeps every input point, its dates strictly
   * increase, every weekday between the first and last input day is present,
   * and every added point is a weekday between two consecutive input points
   * that repeats the earlier one's close and volume.
   */
  lemma ExpandProperties(pts: seq<Point>)
    requires StrictlyAscending(pts)
    ensures StrictlyAscending(ExpandToDailyWeekdays(pts))
    ensures forall p :: p in pts ==> p in ExpandToDailyWeekdays(pts)
    ensures forall q :: q in ExpandToDailyWeekdays(pts) && q !in pts ==> IsWeekday(q.date) && FilledFrom(q, pts)
    ensures |pts| > 0 ==> forall d :: pts[0].date <= d <= pts[|pts| - 1].date && IsWeekday(d) ==>
      d in DatesOf(ExpandToDailyWeekdays(pts))
  {
    if |pts| >= 2 {
      ExpandOrder(pts);
      ExpandContents(pts);
      ExpandCovers(pts);
    }
  }

  lemma ExpandOrder(pts: seq<Point>)
    requires StrictlyAscending(pts) && |pts| >= 2
    ensures StrictlyAscending(ExpandToDailyWeekdays(pts))
  {
    var rest := pts[1..];
    assert [pts[0]] + rest == pts;
    ExpandFromOrder(pts[0], rest);
    AppendStrictlyAscending([pts[0]], ExpandFrom(pts[0], rest));
  }

  lemma ExpandContents(pts: seq<Point>)
    requires StrictlyAscending(pts) && |pts| >= 2
    ensures forall p :: p in pts ==> p in ExpandToDailyWeekdays(pts)
    ensures forall q :: q in ExpandToDailyWeekdays(pts) && q !in pts ==> IsWeekday(q.date) && FilledFrom(q, pts)
  {
    var rest := pts[1..];
    assert [pts[0]] + rest == pts;
    ExpandFromContents(pts[0], rest);
    var r := [pts[0]] + ExpandFrom(pts[0], rest);
    forall p | p in pts ensures p in r {
      if p != pts[0] { assert p in rest; }
    }
  }

  lemma ExpandCovers(pts: seq<Point>)
    requires StrictlyAscending(pts) && |pts| >= 2
    ensures forall d :: pts[0].date <= d <= pts[|pts| - 1].date && IsWeekday(d) ==>
      d in DatesOf(ExpandToDailyWeekdays(pts))
  {
    var rest := pts[1..];
    assert [pts[0]] + rest == pts;
    ExpandFromCovers(pts[0], rest);
    var after := ExpandFrom(pts[0], rest);
    assert rest[|rest| - 1] == pts[|pts| - 1];
    DatesOfCons(pts[0], after);
  }

  /** Expanding a series whose points are consecutive weekdays adds nothing. */
  lemma ExpandConsecutiveWeekdays(pts: seq<Point>)
    requires StrictlyAscending(pts)
    requires forall i :: 0 <= i < |pts| - 1 ==> forall d :: pts[i].date < d < pts[i + 1].date ==> !IsWeekday(d)
    ensures forall q :: q in ExpandToDailyWeekdays(pts) ==> q in pts
  {
    ExpandProperties(pts);

  }

  /**
   * `ensureDaily`: a series whose median gap is at most 1.5 days comes back
   * unchanged; a sparser one (which must then have distinct, ascending
   * days) is expanded to weekdays. Either way every input point is kept.
   */
  function EnsureDaily(pts: seq<Point>): (r: seq<Point>)
    requires MedianGapDays(pts) > 1.5 ==> StrictlyAscending(pts)
    ensures MedianGapDays(pts) <= 1.5 ==> r == pts
    ensures forall p :: p in pts ==> p in r
    ensures StrictlyAscending(pts) ==> StrictlyAscending(r)
  {
    if MedianGapDays(pts) <= 1.5 then pts
    else
      ExpandProperties(pts);
      ExpandToDailyWeekdays(pts)
  }

  /** A series of consecutive days is already daily. */
  lemma EnsureDailyKeepsDaily(pts: seq<Point>)
    requires forall i :: 0 <= i < |pts| - 1 ==> pts[i + 1].date == pts[i].date + 1
    ensures MedianGapDays(pts) <= 1.5 && EnsureDaily(pts) == pts
  {
    if |pts| >= 2 {
      ConsecutiveDaysGap(pts);
    }
  }

  // ---------------------------------------------------------------------
  // Trailing moving averages
  // ---------------------------------------------------------------------

  /** `buildPrefix`: `pref[i]` is the sum of the first `i` closes. */
  method BuildPrefix(closes: seq<real>) returns (pref: seq<real>)
    ensures |pref| == |closes| + 1
    ensures pref[0] == 0.0
    ensures forall i :: 0 <= i <= |closes| ==> pref[i] == Sum(closes[..i])
  {
    pref := [0.0];
    var i := 1;
    while i <= |closes|
      invariant 1 <= i <= |closes| + 1
      invariant |pref| == i
      invariant forall k :: 0 <= k < i ==> pref[k] == Sum(closes[..k])
    {
      assert closes[..i][..i - 1] == closes[..i - 1];
      pref := pref + [pref[i - 1] + closes[i - 1]];
      i := i + 1;
    }
  }

  /** `pref` holds the prefix sums of `closes`. */
  predicate IsPrefixOf(pref: seq<real>, closes: seq<real>) {
    |pref| == |closes| + 1 && forall i :: 0 <= i <= |closes| ==> pref[i] == Sum(closes[..i])
  }

  /** `smaBefore`: no value before `n` bars exist. */
  function SmaBefore(prefix: seq<real>, i: int, n: int): (r: Option<real>)
    requires 0 <= i < |prefix| && n > 0
    ensures r.None? <==> i < n
  {
    if i < n then None else Some((prefix[i] - prefix[i - n]) / n as real)
  }

  /** The value at bar `i` is the mean of the `n` closes before it, bar `i` itself excluded. */
  lemma SmaIsTrailingMean(closes: seq<real>, pref: seq<real>, i: int, n: int)
    requires IsPrefixOf(pref, closes)
    requires n > 0 && n <= i <= |closes|
    ensures SmaBefore(pref, i, n) == Some(Sum(closes[i - n..i]) / n as real)
  {
    var upto := closes[..i];
    SumSplit(upto, i - n);
    assert upto[..i - n] == closes[..i - n];
    assert upto[i - n..] == closes[i - n..i];
  }

  // ---------------------------------------------------------------------
  // Returns
  // ---------------------------------------------------------------------

  datatype ReturnPoint = ReturnPoint(date: int, value: Float)

  /** `((close / base) - 1) * 100` in IEEE arithmetic. */
  function PercentReturn(close: real, base: real): (r: Float)
    ensures base != 0.0 ==> r.Finite? && r.v * base == (close - base) * 100.0
    ensures base == 0.0 ==> !r.Finite?
  {
    match DivF(close, base)
    case Finite(x) => Finite((x - 1.0) * 100.0)
    case other => other
  }

  /** `toReturns`: percentage change of every close against the first. */
  function ToReturns(arr: seq<Point>): (r: seq<ReturnPoint>)
    ensures |r| == |arr|
    ensures forall i :: 0 <= i < |r| ==> r[i].date == arr[i].date
    ensures |arr| > 0 && arr[0].close != 0.0 ==> r[0].value == Finite(0.0)
    ensures |arr| > 0 && arr[0].close != 0.0 ==> forall i :: 0 <= i < |r| ==>
      r[i].value.Finite? && r[i].value.v * arr[0].close == (arr[i].close - arr[0].close) * 100.0
  {
    if |arr| == 0 then []
    else
      var base := arr[0].close;
      seq(|arr|, i requires 0 <= i < |arr| => ReturnPoint(arr[i].date, PercentReturn(arr[i].close, base)))
  }

  /** The closes can be recovered from the returns and the first close. */
  lemma ReturnsRecoverCloses(arr: seq<Point>, i: int)
    requires 0 <= i < |arr| && arr[0].close != 0.0
    ensures arr[i].close == arr[0].close * (1.0 + ToReturns(arr)[i].value.v / 100.0)
  {
  }
}
