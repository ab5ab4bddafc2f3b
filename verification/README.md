# fundaiq-web valuation core, modelled in Dafny

fundaiq-web turns a company's uploaded financial statements into a valuation
report, and lets a signed-in user track a portfolio. This project models the
deterministic part of that system and proves properties of the model.

On the Python backend it covers:

- metric derivation from the statement tables;
- the three-phase DCF, its 5×5 sensitivity grid, and the EPS projection with its two grids;
- FIFO position accounting and the FX-rate resolution order;
- Excel header cleaning, the lenient numeric cleaning around the metric call, the JSON sanitisers, and the Green/Amber/Red report thresholds.

On the TypeScript frontend it covers:

- the CSV transaction parser;
- broker-symbol scoring and the local symbol registry;
- trend tags and the executive summary;
- the price-chart series helpers;
- the route guard and the safe-redirect check;
- the API client's URL handling and 401 retry;
- breadcrumbs and the portfolio number formatters.

There is one module per source file (`Dcf`, `PriceChart`, `ApiClient`, ...) and a few shared modules:

- `Wrappers`: `Option` and `Result`.
- `Numeric`: sums, Python slicing, and IEEE values as `Float`.
- `Text`: ASCII case mapping, split and join.
- `PyModel`: Python values and their conversions.
- `JsModel`: JavaScript values, truthiness, `||` and `?.`.
- `Sorting`: a stable sort by a real key.

Numbers are `real`. Wherever the source rounds, formats or parses a number, the model takes a function parameter standing for that behaviour:

- Python's `round`, fractional `**` and `float(str)`;
- JavaScript's `parseFloat`, `Number`, `toFixed`, `toLocaleString` and `Intl.NumberFormat`;
- `JSON.parse` and `String(v)`.

The environment becomes parameters or data as well: dates (as day numbers), prices, FX quotes, the FX cache, `localStorage`, cookies and the server's replies. No property depends on what these parameters compute beyond what its `requires` states.

Python exceptions are modelled as `Result` failures that carry the exception kind, so most unguarded paths of the source have an error case in the model. A few are preconditions instead:

- the DCF's divisions and its use of the last year's cash flow: at least one year, non-zero shares, an interest rate other than -100 and other than the terminal growth rate, and a non-zero enterprise value for the terminal weight;
- the weekday expansion of the price chart, which would never terminate on a series that is not strictly ascending.

## Model

| member | source | states |
|---|---|---|
| MetricsCalculator.SafeDivide | backend/metrics/metrics_calculator.py:1-5 | a zero denominator gives 0.0; otherwise the result times the denominator is the numerator |
| MetricsCalculator.FloatDiv | backend/metrics/metrics_calculator.py:3 | Python float division raises exactly for a zero divisor and propagates NaN |
| MetricsCalculator.SafeDivideValue | backend/metrics/metrics_calculator.py:1-5 | a denominator of 0 or None, a failed float() conversion of either side, or a zero converted divisor all give 0.0; the function never raises |
| MetricsCalculator.SafeDivideValueOnFloats | backend/metrics/metrics_calculator.py:1-5 | on finite floats the general safe_divide agrees with the numeric one |
| MetricsCalculator.SafeLast | backend/metrics/metrics_calculator.py:7-8 | the last element, or 0 for an empty list |
| MetricsCalculator.CleanCell | backend/metrics/metrics_calculator.py:17-24 | 'NaT', None, '', a float NaN, any casing of 'nan' and cells float() rejects read as 0; any other cell reads as the finite value float() gives it (a cell float() reads as inf or nan is outside the model, see below) |
| MetricsCalculator.GetValues | backend/metrics/metrics_calculator.py:13-25 | an absent label gives len(years) zeros; otherwise min(len(row), len(years)) cleaned cells, in row order |
| MetricsCalculator.SumLast4 | backend/metrics/metrics_calculator.py:27-32 | 0 for an empty list, the whole sum under four entries, otherwise the sum of the last four |
| MetricsCalculator.SumLast4Slides | backend/metrics/metrics_calculator.py:27-32 | appending a quarter to four or more slides the window: the oldest quarter leaves, the new one enters |
| MetricsCalculator.CalculateGrowth | backend/metrics/metrics_calculator.py:34-47 | one growth value per consecutive pair, so max(0, n-1) values |
| MetricsCalculator.GrowthCases | backend/metrics/metrics_calculator.py:37-46 | after 0 the growth is 0; after a positive value it is the rounded change relative to it; across a sign change from negative it is the change relative to abs(prev); a loss that stays a loss gets the negated relative change |
| MetricsCalculator.ScaleShares | backend/metrics/metrics_calculator.py:128-132 | counts are scaled to crores and rounded; a last count of exactly 0 takes the previous one when there is one, and the length is kept |
| MetricsCalculator.ScaleSharesLastNonZero | backend/metrics/metrics_calculator.py:131-132 | after scaling, the last share count is non-zero whenever the one before it is |
| MetricsCalculator.CalculateCagr | backend/metrics/metrics_calculator.py:421-428 | the rounded three-period CAGR only with at least four points and a positive fourth-from-last point; a negative last point (complex root) and every other case give 0.0 |
| MetricsCalculator.ReadRaw | backend/metrics/metrics_calculator.py:59-162 | every series is read with get_values under the label the source uses |
| MetricsCalculator.Zip2 | backend/metrics/metrics_calculator.py:172 | zip of two series: the shorter length, pairwise mapped |
| MetricsCalculator.Zip3 | backend/metrics/metrics_calculator.py:165 | zip of three series: the shortest length, mapped element by element |
| MetricsCalculator.Ebitda | backend/metrics/metrics_calculator.py:177-179 | EBITDA per year is revenue less the operating cost lines plus the inventory change, no longer than any input line or min_len |
| MetricsCalculator.TtmOr | backend/metrics/metrics_calculator.py:269-290 | a TTM figure is the rounded sum of the last four quarters (all of them when fewer) or the annual fallback; a non-zero quarterly sum always wins; the figure is 0 exactly when both the quarterly sum and the fallback are |
| MetricsCalculator.TtmOf | backend/metrics/metrics_calculator.py:269-303 | the TTM sales, operating profit, net profit and EBIT fall back to the latest annual value when their quarterly sum is 0; the sales fallback needs a non-empty revenue series |
| MetricsCalculator.NetDebt | backend/metrics/metrics_calculator.py:172 | net debt per period is debt - cash - investments over the common length |
| MetricsCalculator.SeriesOf | backend/metrics/metrics_calculator.py:172-198 | the chart series are the cleaned revenue and profit, the derived EBITDA/EBIT, net debt, scaled shares and revenue growth |
| MetricsCalculator.LatestNetDebt | backend/metrics/metrics_calculator.py:230 | the last net-debt figure, or 0 when there is none |
| MetricsCalculator.ScalarsOf | backend/metrics/metrics_calculator.py:230-314 | EV is market cap plus latest net debt, the EBIT margin is TTM EBIT over TTM sales, and the share count is the last scaled one |
| MetricsCalculator.MetaFloat | backend/metrics/metrics_calculator.py:51-54 | a missing meta key reads as 0.0; a present one succeeds exactly when float() accepts it, with float()'s value, and otherwise raises float()'s error |
| MetricsCalculator.BaseYearOf | backend/metrics/metrics_calculator.py:395 | the base year is the last year label, or 0 when there are no years |
| MetricsCalculator.Derive | backend/metrics/metrics_calculator.py:269-418 | fails with IndexError exactly when the TTM sales fall back on an empty revenue series or there is no share count; otherwise each *_with_ttm series is the annual series plus one TTM element, and years gain "TTM" |
| MetricsCalculator.CalculateMetrics | backend/metrics/metrics_calculator.py:10-418 | completes only for source "excel" (any other source raises at the first use of ebitda); the revenue series is the cleaned "Sales" row; each *_with_ttm series is one longer than its annual series |
| MetricsUtils.SafeDivide | backend/metrics/utils.py:4-8 | a falsy divisor or a missing operand gives 0; otherwise the quotient times the divisor is the dividend |
| MetricsUtils.SafeDivideAgrees | backend/metrics/utils.py:4-8 | on numbers this safe_divide agrees with the metric calculator's |
| MetricsUtils.SafeLast | backend/metrics/utils.py:10-13 | the last element exactly for a non-empty list, None for anything else |
| MetricsUtils.SafeLastEmptyIsNone | backend/metrics/utils.py:10-13 | an empty list gives None here but 0 in the metric calculator's safe_last |
| MetricsUtils.CalculateCagr | backend/metrics/utils.py:15-21 | None inputs, start <= 0 or periods <= 0 give 0; a negative end with a fractional exponent gives a complex value; otherwise ((end/start)^(1/periods) - 1)·100 |
| MetricsUtils.CagrNegativeEndDiffers | backend/metrics/utils.py:15-21 | for a negative end this CAGR is complex, where the metric calculator's returns 0.0 |
| MetricsUtils.MakeJsonSafe | backend/metrics/utils.py:23-36 | dict keys and list lengths are kept, bools become 0/1, NaN and ±Inf become None, every other value is unchanged |
| MetricsUtils.MakeJsonSafeSound | backend/metrics/utils.py:23-36 | the result is JSON-safe (no bool, no non-finite float anywhere), and a JSON-safe value is left as it is |
| MetricsUtils.MakeJsonSafeIdempotent | backend/metrics/utils.py:23-36 | sanitising twice is sanitising once |
| YahooUtils.DictValuesSanitised | backend/services/yahoo_utils.py:4-5 | each dict entry keeps its key and has its value sanitised recursively |
| YahooUtils.ListItemsSanitised | backend/services/yahoo_utils.py:6-7 | each list element is sanitised in place, so order and length are kept |
| YahooUtils.ScalarRules | backend/services/yahoo_utils.py:8-14 | NaN, +Inf and -Inf become None, finite floats and ints are unchanged, True becomes 1, other values are unchanged |
| Dcf.PhaseOfCases | backend/routers/dcf.py:30-36 | growth_x applies up to x_years, growth_y strictly between x_years and y_years, growth_terminal only in year y_years; when x_years >= y_years the final year uses growth_x |
| Dcf.RevenueExplicit | backend/routers/dcf.py:27-38 | in the explicit phase revenue is the base compounded at growth_x once per year |
| Dcf.RevenueFade | backend/routers/dcf.py:27-38 | in the fade phase revenue is compounded x_years times at growth_x, then at growth_y for the remaining years |
| Dcf.RevenueBeforeTerminal | backend/routers/dcf.py:27-38 | the year before the last has seen x_years steps at growth_x and the remaining ones at growth_y |
| Dcf.RevenueTerminal | backend/routers/dcf.py:27-38 | the final year's revenue adds one step at growth_terminal on top of the fade compounding |
| Dcf.Flow | backend/routers/dcf.py:38-48 | a year's FCF is its revenue times the EBIT margin after tax plus depreciation less capex and working capital; its PV times (1+interest_pct/100)^year is the FCF; the per-share PV times shares is the PV |
| Dcf.Flows | backend/routers/dcf.py:30-64 | exactly y_years rows, with Year = 1..y_years in order |
| Dcf.PvSeries | backend/routers/dcf.py:47-50 | one discounted FCF per year, in year order |
| Dcf.TerminalGordon | backend/routers/dcf.py:66-67 | the terminal value times (interest_pct - g)/100 is the last FCF grown by g; its PV times the y_years-th discount factor is the terminal value |
| Dcf.PerShare | backend/routers/dcf.py:71 | the per-share value times the share count is the total |
| Dcf.Weight | backend/routers/dcf.py:73 | the terminal weight times EV is the terminal PV times 100 |
| Dcf.PhaseSplit | backend/routers/dcf.py:74-75 | phase 1 is the PVs before index x_years, phase 2 the rest, and together they are the sum of all yearly PVs |
| Dcf.Calculate | backend/routers/dcf.py:66-75 | EV is the sum of the yearly PVs plus the terminal PV; equity is EV less net debt; fair value per share is equity per share (`PerShare`, whose product with the share count is equity); the terminal weight is the terminal PV's share of EV in percent (`Weight`); the phase PVs split the yearly PV sum at x_years (a Python slice) and together account for all of it |
| Dcf.Summarise | backend/routers/dcf.py:69-75 | the summary figures satisfy the EV, equity, per-share, weight and phase-split identities for any PV series |
| Dcf.CalculateDcf | backend/routers/dcf.py:24-91 | the FCF table has y_years rows numbered 1..y_years with rounded revenues, and the reported fair value and EV are the rounded model values |
| Sensitivity.Discount | backend/routers/sensitivity.py:43-44 | the yearly discount factor is never zero on a valid input |
| Sensitivity.PvSeries | backend/routers/sensitivity.py:27-45 | one discounted FCF per year, y_years of them |
| Sensitivity.AsDcfInput | backend/routers/sensitivity.py:7-20 | a valid sensitivity input maps to a valid DCF input with the perturbed margin and growth_x = growth_y |
| Sensitivity.GrowthAgrees | backend/routers/sensitivity.py:27-33 | the inner growth rule is the DCF's rule with the perturbed growth in both early phases, so the input's growth_x is never used |
| Sensitivity.RevenueAgrees | backend/routers/sensitivity.py:25-35 | the inner revenue path equals the DCF's revenue path for the mapped input |
| Sensitivity.FcfAgrees | backend/routers/sensitivity.py:36-44 | each inner FCF and its PV equal the DCF's for the mapped input |
| Sensitivity.EnterpriseValueAgrees | backend/routers/sensitivity.py:47-49 | the inner EV is the DCF's EV for the mapped input |
| Sensitivity.Axis | backend/routers/sensitivity.py:55-56 | exactly five values base + 4i for i in -2..2, strictly ascending, centred on the base |
| Sensitivity.DcfSensitivity | backend/routers/sensitivity.py:58-63 | the axes are centred on ebit_margin and growth_y; fair_values is 5×5, with row i the i-th margin and column j the j-th growth |
| Sensitivity.CentreIsBaseDcf | backend/routers/sensitivity.py:55-62 | the centre cell [2][2] is the rounded fair value of the DCF at the base margin and growth_y |
| Sensitivity.Missing | backend/routers/sensitivity.py:7-20 | the missing fields are exactly the required fields absent from the payload |
| Sensitivity.ValidateSensitivity | backend/routers/sensitivity.py:7-20 | validation succeeds exactly when all thirteen fields are present and the year counts are integral; otherwise it names the missing fields |
| Sensitivity.UploadAssumptionsRejected | backend/routers/upload.py:62-91 | the assumptions the upload route builds carry every DCF field but are rejected for the missing net_debt |
| Sensitivity.SensitivityPayload | backend/routers/sensitivity.py:9 | the corrected payload renames latest_net_debt to net_debt and keeps every other field |
| Sensitivity.CorrectedPayloadAccepted | backend/routers/sensitivity.py:7-20 | the corrected payload validates and carries the route's latest net debt |
| EpsCalculator.Truncate | backend/calculators/eps_calculator.py:21 | int() of a float truncates toward zero: the result is within one of the value, on the zero side |
| EpsCalculator.ParseBaseYear | backend/calculators/eps_calculator.py:17-21 | a string fails (int() of the literal match) exactly when it contains the literal text `20\dd` (20, one backslash, then two letters d: in the raw pattern `\\` matches a backslash and `d{2}` matches dd), and otherwise gives 2024; an int is kept; a float is truncated |
| EpsCalculator.OrdinaryLabelFallsBack | backend/calculators/eps_calculator.py:17-19 | any label without a backslash, such as "Mar-2024", falls back to 2024 |
| EpsCalculator.PerShare | backend/calculators/eps_calculator.py:41-68 | a falsy share count gives 0; otherwise the EPS times shares is the net profit |
| EpsCalculator.FiguresOf | backend/calculators/eps_calculator.py:36-68 | EBIT is revenue·margin/100; EBT is EBIT less interest; net profit is EBT less tax, which is EBIT·(1-i/100)·(1-t/100) |
| EpsCalculator.CompoundClosedForm | backend/calculators/eps_calculator.py:61-62 | revenue after i projection steps is the base times (1+g/100)^i |
| EpsCalculator.BasePe | backend/calculators/eps_calculator.py:47 | the year-0 PE exists exactly when EPS0 is truthy (so a negative EPS0 gives a negative PE), and PE times EPS0 is the price |
| EpsCalculator.ProjectedPe | backend/calculators/eps_calculator.py:69 | a projected PE exists exactly when that year's EPS is positive, and PE times EPS is the price |
| EpsCalculator.ShowPe | backend/calculators/eps_calculator.py:57-84 | a PE is shown (rounded) only when it exists and is truthy |
| EpsCalculator.ProjectionTable | backend/calculators/eps_calculator.py:49-85 | N+1 rows; row i is labelled FY{base+i+1} with revenue compounded i times; row 0's PE exists when EPS0 and the price are non-zero, later rows' when EPS > 0 and the price is non-zero |
| EpsCalculator.RowOf | backend/calculators/eps_calculator.py:74-84 | row i is labelled FY{base+i+1} and carries the rounded revenue compounded i times, the rounded EPS and net profit of year i, and a PE exactly when that year's EPS qualifies (non-zero for row 0, positive later) and the price is non-zero |
| EpsCalculator.EpsFairValue | backend/calculators/eps_calculator.py:70-129 | the value left by the last loop iteration: round(max(EPS3, 0)·20, 2) when N == 3, and 0 for every other N |
| EpsCalculator.EpsCagr | backend/calculators/eps_calculator.py:91-131 | 0 when EPS1 <= 0; a ZeroDivisionError for N == 1 with EPS1 > 0; otherwise the (N-1)-period CAGR, complex exactly when EPS_N < 0 and N >= 3 |
| EpsCalculator.Options | backend/calculators/eps_calculator.py:96-118 | count options, the k-th being base + step·(lo+k), rounded to one place |
| EpsCalculator.SensitivityEps | backend/calculators/eps_calculator.py:96-114 | growth and margin options are base + 4i for i in -2..2, the matrix is 5×5 with rows by margin, and each cell is the EPS after N years at that flat growth and margin |
| EpsCalculator.SensitivityCentreIsProjection | backend/calculators/eps_calculator.py:96-114 | when the base growth and margin are already one-decimal values, the centre cell is the projection table's final EPS |
| EpsCalculator.PriceCell | backend/calculators/eps_calculator.py:124 | each price cell is eps·pe when that is non-negative and 0 otherwise |
| EpsCalculator.SensitivityPrice | backend/calculators/eps_calculator.py:117-126 | fails with a TypeError exactly when PE0 is None; otherwise 7 EPS options EPS0 + 5i, 5 PE options PE0 + 5i, and a 7×5 matrix of price cells |
| EpsCalculator.ShortYear | backend/calculators/eps_calculator.py:133 | the chart's year suffix is the last two digits of the year |
| EpsCalculator.Chart | backend/calculators/eps_calculator.py:132-137 | N entries per series, labelled FY plus the two-digit year, with the rounded EPS and net profit of years 1..N |
| EpsCalculator.ChartMatchesTable | backend/calculators/eps_calculator.py:76-137 | chart entry i equals the table's row i+1 in EPS, net profit and revenue |
| EpsCalculator.ProjectEps | backend/calculators/eps_calculator.py:3-147 | a failed base-year parse or N <= 0 (IndexError) fails, and so does EPS0 == 0 (grid B); the projection succeeds exactly when the base year parses, N >= 1, the CAGR neither divides by zero nor comes out complex, and a base P/E exists; on success the report is the N+1-row table, the chart, the rounded CAGR, the fair value and both sensitivity grids defined above |
| EpsCalculator.NoSharesAlwaysFails | backend/calculators/eps_calculator.py:41-118 | with zero shares every EPS is 0, PE0 is None, and grid B raises |
| Positions.TxLeTransitive | backend/core/positions.py:33-38 | the (trade_date, created_at) order is transitive |
| Positions.InsertTx | backend/core/positions.py:33-38 | inserting into a sorted run keeps it sorted and adds exactly the one transaction |
| Positions.SortTxs | backend/core/positions.py:33-38 | transactions are replayed in ascending (trade_date, created_at) order, as a permutation of the input |
| Positions.MatchSell | backend/core/positions.py:66-81 | the queue-based matching loop (pop the front lot when used up, stop when the sell is covered or no lot is left) computes the reference FIFO fill |
| Positions.FifoConservesQuantity | backend/core/positions.py:69-81 | the quantity left in the lots plus the quantity sold equals the quantity held before |
| Positions.FifoRealizedIsProceedsLessCost | backend/core/positions.py:74-76 | realized P&L is the sold quantity times the unit proceeds less the cost of the lots consumed |
| Positions.FifoOversellEmptiesQueue | backend/core/positions.py:69-81 | an oversell empties the queue and the uncovered part is dropped; with non-negative lots the uncovered part never exceeds the sell |
| Positions.FifoConsumesFromFront | backend/core/positions.py:69-81 | lots are consumed from the front: what is left is an untouched suffix, except that the first remaining lot may be partly used |
| Positions.Touch | backend/core/positions.py:27 | first touching a symbol appends it to the first-touched order with an empty queue; nothing else changes |
| Positions.TradeFx | backend/core/positions.py:45-51 | INR trades use 1; other currencies use the stored fx_rate when truthy, else the FX rate at the trade date |
| Positions.BuyLot | backend/core/positions.py:55-56 | the lot keeps the bought quantity; its unit cost times the quantity is (qty·price + fees)·fx, or 0 when qty <= 0 |
| Positions.SellUnitProceeds | backend/core/positions.py:63-75 | the unit proceeds times the quantity is (qty·price - fees)·fx |
| Positions.Apply | backend/core/positions.py:40-85 | a BUY appends its lot (even for a non-positive quantity); a SELL of qty <= 0 and every other side change nothing; other symbols' lots never change; an FX failure fails |
| Positions.Replay | backend/core/positions.py:40-85 | replaying keeps the book well-formed |
| Positions.PositionOf | backend/core/positions.py:94-115 | a symbol with remaining qty <= 0 has no position; otherwise the position carries the remaining quantity and cost, and a value exactly when a price is known |
| Positions.PositionsOf | backend/core/positions.py:94-134 | only symbols with positive remaining quantity are listed, at most one per symbol |
| Positions.OpenSymbolsListed | backend/core/positions.py:94-134 | every symbol with positive remaining quantity is listed |
| Positions.PositionsOfStep | backend/core/positions.py:94-134 | holdings are appended symbol by symbol: the list for all symbols is the list for all but the last, followed by the last one's position when it has one |
| Positions.Weights | backend/core/positions.py:137-140 | each weight is the holding's value (0 when unknown) over the total value, times 100 |
| Positions.WeightsSumTo100 | backend/core/positions.py:137-140 | with a positive total value the unrounded weights sum to 100 |
| Positions.ScaledSum | backend/core/positions.py:137-140 | the weights sum to the total value over the divisor, times 100 |
| Positions.HoldingOf | backend/core/positions.py:114-143 | a holding keeps the symbol and quantity; it has a weight exactly when the total value is positive, and an unrealized P&L exactly when its value is known |
| Positions.ComputePositions | backend/core/positions.py:17-155 | every holding has positive quantity; total value and total unrealized P&L are present together; when they are absent every weight is None, otherwise every weight is present |
| Positions.Holdings | backend/core/positions.py:136-143 | one holding per open position, in order, each with positive quantity, and a weight exactly when the total value is positive |
| Fx.DirectPair | backend/core/fx.py:11-16 | a direct Yahoo ticker exists only for the four listed pairs, all of which quote INR or are INR to USD |
| Fx.TryDirect | backend/core/fx.py:45-65 | without a mapped ticker nothing is looked up; with one, exactly that ticker is looked up for the date |
| Fx.IdentityRate | backend/core/fx.py:53-55 | codes that upper-case to the same currency give rate 1 without touching the cache or looking anything up |
| Fx.GetFxRate | backend/core/fx.py:48-94 | codes are upper-cased first, so codes equal up to case give rate 1 with nothing looked up; every failure is the "FX rate not available" error; the number of tickers looked up is bounded by the triangulation depth |
| Fx.Resolve | backend/core/fx.py:53-77 | the identity pair and a cached pair are answered with the cache unchanged and nothing looked up; every failure is the "FX rate not available" error |
| Fx.Fallback | backend/core/fx.py:80-94 | every failure is the "FX rate not available" error; a pair with a USD side looks up only the generic BASEQUOTE=X ticker |
| Fx.CacheHitFirst | backend/core/fx.py:57-60 | a cached rate for the upper-cased pair and date is returned before any lookup, with the cache unchanged |
| Fx.DirectThenInverse | backend/core/fx.py:62-77 | on a cache miss the direct ticker is looked up first and its close is the rate; failing that, a non-zero inverted close, inverted to 8 places, is the rate |
| Fx.TriangulationLegsDoNotNest | backend/core/fx.py:80-82 | both triangulation legs involve USD, so neither can triangulate again |
| Fx.ResolvedRatesAreCached | backend/core/fx.py:62-92 | every rate found for a non-identity pair is written to the cache and no earlier cache entry is lost or changed |
| Fx.FallbackCached | backend/core/fx.py:80-94 | on a cache miss, a rate found by triangulation or by the generic ticker is cached under the pair and date, and no earlier entry is lost or changed |
| Fx.TriangulationFailurePropagates | backend/core/fx.py:80-85 | when the first leg through USD fails, that failure is the outcome and the generic ticker is never tried |
| Fx.GenericTickerIsLastResort | backend/core/fx.py:87-94 | with a USD code and no usable direct or inverse close, the generic BASEQUOTE=X ticker is the last lookup; its close is the rate and is cached, and without one the resolution fails |
| UploadParser.FormatColumnHeaders | backend/routers/upload_parser.py:8-26 | one output header per input header |
| UploadParser.BlankHeadersNumbered | backend/routers/upload_parser.py:12-20 | a date header becomes its formatted date, a non-blank header its text, and blank headers become Unnamed_1, Unnamed_2, ... in order of appearance |
| UploadParser.DedupNumbersOccurrences | backend/routers/upload_parser.py:21-25 | the k-th occurrence of a header (k > 1) gets the suffix _k, and a header's first occurrence is kept as it is |
| UploadParser.DedupNotUnique | backend/routers/upload_parser.py:21-25 | the suffixed headers need not be unique: a header already spelled like a suffix collides with the generated one |
| UploadParser.Dedup | backend/routers/upload_parser.py:21-25 | one header per input header, each starting with the input header, and the first header kept as it is |
| UploadParser.FirstLabelled | backend/routers/upload_parser.py:29 | the first row at or after the start whose first cell is the section label, or none when no row has it |
| UploadParser.Kept | backend/routers/upload_parser.py:35-36 | exactly the indices of the headers that do not start with Unnamed_, in column order |
| UploadParser.RowValues | backend/routers/upload_parser.py:40 | a row's values are the cells one column right of each kept header index |
| UploadParser.StopRow | backend/routers/upload_parser.py:38-42 | the scan stops at the first row whose label is NaN, and every row before it has a label |
| UploadParser.HeaderCells | backend/routers/upload_parser.py:31 | the header cells are columns 1 to 10 of the header row (fewer when the row is narrower) |
| UploadParser.ScanRowsKeys | backend/routers/upload_parser.py:38-43 | every row before the stop row is in the table under its stripped label |
| UploadParser.ScanRowsKeySet | backend/routers/upload_parser.py:38-43 | the table's keys are exactly the starting keys plus the stripped labels of the rows before the stop row |
| UploadParser.ScanRowsKeysFromRows | backend/routers/upload_parser.py:38-43 | every key in the table comes from a row before the stop row |
| UploadParser.ScanRowsWidth | backend/routers/upload_parser.py:40-43 | every row in the table has one value per kept year |
| UploadParser.ExtractTable | backend/routers/upload_parser.py:28-44 | a missing section label raises; on success every year is a kept header and every row has one value per year |
| UploadParser.KeptHeaders | backend/routers/upload_parser.py:35-36 | one year per kept position, each the header at that position |
| UploadParser.KeptHeadersExact | backend/routers/upload_parser.py:35-36 | a header is among the years exactly when it is a formatted header not starting with Unnamed_ |
| UploadParser.TableAt | backend/routers/upload_parser.py:33-44 | every year under a found header row is a kept header and every row has one value per year |
| UploadParser.TableAtContents | backend/routers/upload_parser.py:33-44 | the years are exactly the kept formatted headers and every row up to the first NaN label is read |
| UploadParser.ExtractTableRows | backend/routers/upload_parser.py:28-44 | with the label present and the header row in range, the years are exactly the kept formatted headers and every row before the first NaN label is in the table |
| UploadParser.NormalizeTable | backend/routers/upload_parser.py:64-68 | same keys and row lengths; each None cell becomes 0 and every other cell is kept |
| UploadParser.NormalizeTableIdempotent | backend/routers/upload_parser.py:64-68 | after normalisation no cell is None, so normalising again changes nothing |
| UploadParser.Clean | backend/routers/upload_parser.py:64-78 | the cleaned table keeps its keys and row lengths, every None cell becomes 0, and no None is left |
| UploadParser.JsonSafe | backend/routers/upload_parser.py:70-78 | lists and dicts keep their length and keys, timestamps and NaT become their text, every other value is unchanged |
| UploadParser.JsonSafeIdempotent | backend/routers/upload_parser.py:70-78 | the result holds no timestamps, so sanitising again changes nothing |
| UploadParser.JsonSafeTable | backend/routers/upload_parser.py:70-78 | a sanitised table keeps its keys and row lengths |
| UploadParser.CommonYears | backend/routers/upload_parser.py:119 | a year is kept exactly when it is a profit-and-loss year that is also a balance-sheet year and a cash-flow year |
| UploadParser.CommonYearsInOrder | backend/routers/upload_parser.py:119 | the common years keep the profit-and-loss order |
| UploadParser.CompanyName | backend/routers/upload_parser.py:85 | the company name is cell B1 when truthy, otherwise Unknown Company, and is never falsy |
| UploadParser.ParseExcel | backend/routers/upload_parser.py:46-121 | a sheet without a META row raises IndexError and a one-column sheet with one raises ValueError, both before any table is read; otherwise parsing succeeds exactly when all four sections are found; the years are the common years and the profit-and-loss table keeps the extracted rows |
| SafeMetricsWrapper.CleanText | backend/routers/safe_metrics_wrapper.py:12 | removing the commas, dollar and rupee signs and the surrounding blanks never lengthens the text |
| SafeMetricsWrapper.SafeNumeric | backend/routers/safe_metrics_wrapper.py:6-22 | the result is always a number: None, blank or "-" text, unparsable text, non-finite floats and containers become 0; parsable text becomes its float; a finite float is kept and an int becomes its float |
| SafeMetricsWrapper.NanStringPassesThrough | backend/routers/safe_metrics_wrapper.py:11-19 | a NaN float becomes 0 but the text "nan" becomes NaN and "inf" becomes infinity, because text skips the finiteness test; cleaning the result again gives 0 |
| SafeMetricsWrapper.SpelledNonFinite | backend/routers/safe_metrics_wrapper.py:11-15 | the words nan and inf are passed to float() as they are and come back non-finite |
| SafeMetricsWrapper.CleanFinancialData | backend/routers/safe_metrics_wrapper.py:24-31 | dicts keep their keys in order with cleaned values, list items are coerced one by one, and any other value is coerced |
| SafeMetricsWrapper.CleanFinancialDataCleans | backend/routers/safe_metrics_wrapper.py:24-31 | after cleaning every leaf is a number (NaN and infinity only where they came from text) |
| SafeMetricsWrapper.NestedListBecomesZero | backend/routers/safe_metrics_wrapper.py:28-29 | a list nested in a list is not descended into: it becomes 0 |
| SafeMetricsWrapper.AsList | backend/routers/safe_metrics_wrapper.py:47-48 | a list is kept, None becomes the empty list, and any other value becomes a one-item list |
| SafeMetricsWrapper.PadRow | backend/routers/safe_metrics_wrapper.py:50-53 | the row is padded with 0 or trimmed to exactly n values, keeping the first values in place |
| SafeMetricsWrapper.PadRowMatches | backend/routers/safe_metrics_wrapper.py:50-53 | the append loop computes the same row as the declarative padding |
| SafeMetricsWrapper.PadTable | backend/routers/safe_metrics_wrapper.py:45-53 | every row keeps its key and is a list of exactly n values |
| SafeMetricsWrapper.Get | backend/routers/safe_metrics_wrapper.py:70-71 | a lookup finds a value exactly when the key is present, and the value is the one stored under it |
| SafeMetricsWrapper.RowOr | backend/routers/safe_metrics_wrapper.py:70-71 | the first key's row when present, else the second key's row, else n zeros; always a list of n values |
| SafeMetricsWrapper.FallbackMetricsOf | backend/routers/safe_metrics_wrapper.py:70-92 | the fallback metrics, after cleaning, have shares outstanding one million, current price the float 0.0, the year labels coerced to numbers, revenue and net profit rows of one value per year, a latest revenue that is a number (0.0 with no years), and an error slot that is a number: the exception text is coerced like any other value |
| SafeMetricsWrapper.FallbackLatestRevenue | backend/routers/safe_metrics_wrapper.py:78-92 | with at least one year, the latest revenue is the fallback revenue row's last value coerced once more by the final cleaning |
| SafeMetricsWrapper.FallbackAssumptionsOf | backend/routers/safe_metrics_wrapper.py:83-90 | the fallback assumptions are growth 10, terminal growth 3, discount 12, five forecast years, and the last year label (2023 when there is none) as base year |
| SafeMetricsWrapper.SafeCalculateMetrics | backend/routers/safe_metrics_wrapper.py:33-92 | the wrapper returns the fallback: one million shares, current price 0.0, one coerced year per label, base year the last label or 2023 |
| SafeMetricsWrapper.FallbackRevenue | backend/routers/safe_metrics_wrapper.py:70-75 | the fallback revenue is the padded Sales row, else the padded Revenue row, else zeros, cleaned, one value per year; so is net profit in length |
| Styles.Classify | backend/pdf/styles.py:79-87 | for higher-is-better metrics green is at or above the green bound and amber from the amber bound up to it; for lower-is-better metrics green is below the green bound and amber up to and including the amber bound; NaN is red |
| Styles.ClassifyMonotone | backend/pdf/styles.py:79-87 | a better value never gets a worse colour |
| Styles.ClassifyBoundaries | backend/pdf/styles.py:80-86 | the bounds sit where the rule texts put them: ROE 15 green, 11 amber, 10.99 red; P/E 50 amber, 50.01 red; PEG 1.5 and debt/equity 2 amber; infinities fall to the extremes |
| Styles.RagColoursTotal | backend/pdf/styles.py:100-110 | every colour a rule yields has a background and a border, and the three colours are told apart by both |
| Styles.SafeNum | backend/pdf/styles.py:113-119 | None gives the default, a list its first item (the default when empty), and any other value is kept |
| Styles.FmtRs | backend/pdf/styles.py:121-126 | a value float() rejects prints N/A; otherwise the text is Rs followed by the formatted number |
| Styles.FmtRsNumbers | backend/pdf/styles.py:121-126 | numbers and booleans always print with the Rs prefix, while None, lists, dicts and timestamps print N/A |
| CsvParser.MissingFrom | frontend/src/lib/csvParser.ts:26 | a required header is reported missing exactly when the header line lacks it |
| CsvParser.HeaderNames | frontend/src/lib/csvParser.ts:25 | one header per comma-separated field, trimmed and lower-cased |
| CsvParser.Cells | frontend/src/lib/csvParser.ts:32 | one value per comma-separated field, trimmed |
| CsvParser.RowRecord | frontend/src/lib/csvParser.ts:38-39 | the record has a field for exactly the headers present |
| CsvParser.RowRecordLastWins | frontend/src/lib/csvParser.ts:39 | a repeated header takes the value of its last column |
| CsvParser.DateErrors | frontend/src/lib/csvParser.ts:42-43 | a trade date raises no error exactly when it has the YYYY-MM-DD digit shape, and every error carries the row number |
| CsvParser.PresenceErrors | frontend/src/lib/csvParser.ts:42-53 | no error exactly when the date is well formed, the symbol is present, the side upper-cases to one of the six sides, and quantity and price are present and parse as numbers |
| CsvParser.OptionalErrors | frontend/src/lib/csvParser.ts:54-56 | no error exactly when fees and the FX rate parse whenever present and the trade currency is present |
| CsvParser.RowErrors | frontend/src/lib/csvParser.ts:42-56 | a row raises no error exactly when neither the presence checks nor the optional checks do |
| CsvParser.LineErrors | frontend/src/lib/csvParser.ts:32-36 | every error carries the line's row number; a line of the wrong width raises one error only |
| CsvParser.WrongWidthIsFormatError | frontend/src/lib/csvParser.ts:33-35 | a line whose width differs from the header's raises exactly the format error with the raw line |
| CsvParser.Normalise | frontend/src/lib/csvParser.ts:59-68 | symbol, side and currency are upper-cased; fees default to "0" and are kept when present; the FX rate is empty exactly when absent |
| CsvParser.CleanLineIsValid | frontend/src/lib/csvParser.ts:58-68 | a line without errors yields a transaction that passes every field check |
| CsvParser.LineHasRow | frontend/src/lib/csvParser.ts:58 | the lookup for the row number finds an error exactly when the line raised one |
| CsvParser.Step | frontend/src/lib/csvParser.ts:31-69 | one iteration appends the line's errors and appends its transaction exactly when no error with its row number is in the list |
| CsvParser.LoopMatchesPerRow | frontend/src/lib/csvParser.ts:31-70 | the loop as written, with one shared error list, produces what judging every line on its own produces |
| CsvParser.PerRowErrorsOfLine | frontend/src/lib/csvParser.ts:31-58 | the errors reported for row k+1 are exactly those of line k |
| CsvParser.PerRowEmitsClean | frontend/src/lib/csvParser.ts:58-68 | every emitted transaction comes from a line that raised no error |
| CsvParser.OneLineFileRejected | frontend/src/lib/csvParser.ts:17-23 | a file with no line break after trimming is rejected with the single file error and no transactions |
| CsvParser.MissingHeadersRejected | frontend/src/lib/csvParser.ts:25-29 | a header line missing a required column is rejected with the single headers error listing the missing columns |
| CsvParser.ParseCsvIsLoop | frontend/src/lib/csvParser.ts:13-73 | with a complete header the result is the loop over lines 1 onwards |
| CsvParser.ParseCsv | frontend/src/lib/csvParser.ts:13-73 | transactions are produced only when the header line holds every required column, and there are fewer transactions than lines |
| CsvParser.RowsJudgedOnTheirOwn | frontend/src/lib/csvParser.ts:31-72 | with a complete header each row's errors are its own line's errors, every error row lies between 2 and the line count, and every emitted transaction passes the field checks |
| CsvParser.PerRowValidFacts | frontend/src/lib/csvParser.ts:58-68 | every transaction emitted over the data lines passes the field checks |
| SymbolResolver.BlankOut | frontend/src/lib/symbolResolver.ts:8 | every character other than an upper-case letter, digit or space becomes a space, in place |
| SymbolResolver.KeepWords | frontend/src/lib/symbolResolver.ts:9-10 | a word is kept exactly when it is non-empty and not a stop word |
| SymbolResolver.NormalizeName | frontend/src/lib/symbolResolver.ts:5-12 | the normalised name is single-spaced with no leading or trailing space, and is empty exactly when no word survives |
| SymbolResolver.NormalizedWords | frontend/src/lib/symbolResolver.ts:5-12 | splitting a non-empty normalised name on spaces gives back its words, none of them a stop word |
| SymbolResolver.RemoveVowels | frontend/src/lib/symbolResolver.ts:16 | the vowels A, E, I, O, U are removed and every other character kept |
| SymbolResolver.Abbrev | frontend/src/lib/symbolResolver.ts:16 | a word's abbreviation has at most three characters, none a vowel, all from the word |
| SymbolResolver.MakeAcronym | frontend/src/lib/symbolResolver.ts:14-18 | the acronym has at most eight characters and no vowel |
| SymbolResolver.AcronymOfWords | frontend/src/lib/symbolResolver.ts:14-18 | the acronym is the first eight characters of the words' abbreviations joined, all letters or digits |
| SymbolResolver.ScoreSymbolMatch | frontend/src/lib/symbolResolver.ts:20-28 | the score is one of 0, 88, 90, 92, 96, 100 |
| SymbolResolver.AutoAcceptIff | frontend/src/lib/symbolResolver.ts:20-32 | a match is auto-accepted exactly when the symbol starts with the broker symbol or the broker symbol is the acronym |
| SymbolResolver.ScorePositiveIff | frontend/src/lib/symbolResolver.ts:20-28 | the score is positive exactly when the symbol or the acronym starts with the broker symbol or the normalised name contains it |
| SymbolResolver.EmptyBrokerSymbolMatchesAll | frontend/src/lib/symbolResolver.ts:22-25 | an empty broker symbol scores at least 90 against every row |
| SymbolResolver.SymbolOf | frontend/src/lib/symbolResolver.ts:48 | the symbol is the ticker up to its first dot, or the whole ticker when it has none |
| SymbolResolver.Expand | frontend/src/lib/symbolResolver.ts:45-51 | every row is scored against the broker symbol, in list order |
| SymbolResolver.RankPositive | frontend/src/lib/symbolResolver.ts:53-55 | the ranked candidates are rows with a positive score, in descending score order |
| SymbolResolver.RankedArePositive | frontend/src/lib/symbolResolver.ts:53-55 | everything the filter-then-sort keeps has a positive score and comes from the expanded list |
| SymbolResolver.RankPositiveTiers | frontend/src/lib/symbolResolver.ts:53-55 | the stable sort groups the positive rows by score tier, keeping list order inside a tier |
| Sorting.SortDesc | frontend/src/lib/symbolResolver.ts:55 | sorting is a permutation: same length, same multiset of elements |
| Sorting.SortDescSorted | frontend/src/lib/symbolResolver.ts:55 | the comparator b - a orders the result by non-increasing key |
| Sorting.SortDescStable | frontend/src/lib/symbolResolver.ts:55 | the sort is stable: for every key, the elements carrying it appear in input order |
| Sorting.StableSortIsTiers | frontend/src/lib/symbolResolver.ts:55 | the stable sort lists each key's elements in turn, highest key first, each group in input order |
| SymbolResolver.ProposeCandidates | frontend/src/lib/symbolResolver.ts:43-62 | at most five candidates, each with a positive score and taken from the list, in descending score order; none for an empty list |
| SymbolResolver.ProposalsByTier | frontend/src/lib/symbolResolver.ts:43-62 | the proposals are the first five rows of the score tiers, highest tier first |
| SymbolResolver.Candidates | frontend/src/lib/symbolResolver.ts:56-60 | each candidate keeps its row's ticker and score, and its caption starts with the row's name and ends with the separator and the ticker |
| SymbolResolver.SuggestionScore | frontend/src/lib/symbolResolver.ts:67-75 | the suggestion score is one of 0, 70, 80, 90, 100 |
| SymbolResolver.SuggestionScorePositiveIff | frontend/src/lib/symbolResolver.ts:67-76 | a row scores above 0 exactly when its ticker or name contains the query |
| SymbolResolver.Suggestions | frontend/src/lib/symbolResolver.ts:66-75 | every row is scored in list order, and scores above 0 exactly when its upper-cased ticker or name contains the query |
| SymbolResolver.FilterSuggestions | frontend/src/lib/symbolResolver.ts:64-81 | a blank query gives nothing; otherwise at most the limit, and only rows from the list |
| SymbolResolver.SuggestionsByTier | frontend/src/lib/symbolResolver.ts:64-81 | for a non-blank query the suggestions are the score tiers, highest first and in list order within a tier, cut to the limit |
| ExecutiveSummary.Safe | frontend/src/lib/executiveSummaryService.ts:67-71 | null and undefined give the fallback; a finite number is kept; text is parsed; a non-finite reading gives the fallback, so any other result is the finite reading |
| ExecutiveSummary.Pick | frontend/src/lib/executiveSummaryService.ts:75-79 | the chain of alternatives yields the first truthy value, or the last alternative when none is truthy |
| ExecutiveSummary.PrimaryFairValue | frontend/src/lib/executiveSummaryService.ts:98-99 | the DCF fair value when positive, otherwise the EPS fair value (the second correction changes nothing) |
| ExecutiveSummary.ValuationGap | frontend/src/lib/executiveSummaryService.ts:101-103 | with a positive price and fair value the gap is the percentage distance of the fair value from the price, otherwise 0; it is positive exactly when the fair value is above the price and never below -100 |
| ExecutiveSummary.Recommend | frontend/src/lib/executiveSummaryService.ts:106-110 | STRONG BUY above 25, BUY above 10, STRONG SELL below -25, SELL below -10, HOLD in between inclusive |
| ExecutiveSummary.RecommendMonotone | frontend/src/lib/executiveSummaryService.ts:106-110 | a larger gap never gets a weaker recommendation |
| ExecutiveSummary.RawStrengthScore | frontend/src/lib/executiveSummaryService.ts:199-220 | the unclamped strength score stays between 0 and 110 |
| ExecutiveSummary.StrengthScore | frontend/src/lib/executiveSummaryService.ts:199-226 | the strength score is the raw score clamped to at most 100, and lies in 0..100 |
| ExecutiveSummary.StrengthMonotone | frontend/src/lib/executiveSummaryService.ts:199-226 | better liquidity, lower leverage and higher ROE never lower the score |
| ExecutiveSummary.StrengthCount | frontend/src/lib/executiveSummaryService.ts:277-343 | at most eight strength rules fire, and none exactly when no strength condition holds |
| ExecutiveSummary.RiskCount | frontend/src/lib/executiveSummaryService.ts:277-343 | at most eight risk rules fire, and none exactly when no risk condition holds |
| ExecutiveSummary.OpportunityCount | frontend/src/lib/executiveSummaryService.ts:277-343 | at most five opportunity rules fire, and none exactly when no opportunity condition holds |
| ExecutiveSummary.FillAndCut | frontend/src/lib/executiveSummaryService.ts:346-359 | an empty list becomes the one default entry; a non-empty one is cut to its first n entries |
| ExecutiveSummary.KeyHighlights | frontend/src/lib/executiveSummaryService.ts:265-361 | 1 to 5 strengths, 1 to 4 risks, 1 to 3 opportunities; each list is the default sentence exactly when none of its rules fired, and otherwise exactly the first 5, 4 or 3 sentences of the rules that fired, in rule order |
| ExecutiveSummary.SafePick | frontend/src/lib/executiveSummaryService.ts:66-83 | the first truthy key decides: its finite reading is the value, otherwise 0; a non-zero value is the finite reading of such a key; with every key falsy and the last one missing or null the value is 0 |
| ExecutiveSummary.Overview | frontend/src/lib/executiveSummaryService.ts:73-88 | the price and market cap are the first truthy of their three spellings, read as finite numbers or 0; sector and industry are the metric as text when truthy, else N/A; the description is the description, else the long business summary, else "No description available" |
| ExecutiveSummary.Valuation | frontend/src/lib/executiveSummaryService.ts:93-122 | the gap is computed from the primary fair value, the recommendation from the gap, and without DCF results the phase shares default to 35, 30 and 35 |
| ExecutiveSummary.Growth | frontend/src/lib/executiveSummaryService.ts:126-147 | historical revenue and EPS growth are read from their three spellings; each projected rate is the snake-case assumption when truthy, else the camel-case one when truthy, else the DCF (revenue) or EPS (earnings) result, each read as a finite number or 0 |
| ExecutiveSummary.Health | frontend/src/lib/executiveSummaryService.ts:184-227 | the health score is the clamped strength score of the chosen ratios |
| ExecutiveSummary.CalculateExecutiveSummary | frontend/src/lib/executiveSummaryService.ts:55-260 | the summary's gap, recommendation, score range, highlight counts and phase defaults agree with the parts above |
| ExecutiveSummary.ValidateSummaryData | frontend/src/lib/executiveSummaryService.ts:450-484 | valid exactly when there are no errors, which is exactly when the current price and the valuation summary are truthy; the two warnings appear exactly when the current ratio is below 1 or the gap exceeds 50 in magnitude |
| ExecutiveSummary.FormatFields | frontend/src/lib/executiveSummaryService.ts:378-417 | each formatted section has exactly its listed fields, each the input's value when truthy and the default otherwise |
| ExecutiveSummary.FormatSections | frontend/src/lib/executiveSummaryService.ts:377-418 | the formatted data has exactly the six sections, each formatted field by field |
| ExecutiveSummary.FormatWith | frontend/src/lib/executiveSummaryService.ts:367-429 | formatting fails exactly when the data is falsy, and otherwise has exactly the listed sections |
| ExecutiveSummary.FormatKeepsTruthy | frontend/src/lib/executiveSummaryService.ts:377-418 | a formatted field holds the input's value when truthy, else its default |
| ExecutiveSummary.FormatWithIdempotent | frontend/src/lib/executiveSummaryService.ts:367-429 | formatting already formatted data changes nothing |
| ExecutiveSummary.FormatForPdf | frontend/src/lib/executiveSummaryService.ts:367-429 | formatting fails exactly when the data is falsy; otherwise the result has exactly the PDF sections, the sector defaults to N/A and the recommendation to HOLD |
| TrendAnalyzer.Diffs | frontend/src/lib/TrendAnalyzer.ts:6-8 | one difference per step, each the later value less the earlier |
| TrendAnalyzer.CountPositiveFacts | frontend/src/lib/TrendAnalyzer.ts:10 | every difference is counted exactly when all are positive, and some is counted exactly when one is |
| TrendAnalyzer.CountNegativeFacts | frontend/src/lib/TrendAnalyzer.ts:11 | every difference is counted exactly when all are negative, and some is counted exactly when one is |
| TrendAnalyzer.DiffCounts | frontend/src/lib/TrendAnalyzer.ts:6-11 | the two counts say whether every step, or some step, rises or falls |
| TrendAnalyzer.GetTrendTag | frontend/src/lib/TrendAnalyzer.ts:3-17 | fewer than two values are stable; Improving exactly for a strictly rising series, Declining exactly for a strictly falling one, Volatile exactly when the series both rises and falls somewhere |
| TrendAnalyzer.StableExamples | frontend/src/lib/TrendAnalyzer.ts:13-16 | a flat series is stable, and so is one that rises only after a flat step |
| TrendAnalyzer.SeriesTag | frontend/src/lib/TrendAnalyzer.ts:20-28 | a missing metric reads as the empty series and is stable |
| TrendAnalyzer.TagWord | frontend/src/lib/TrendAnalyzer.ts:30-31 | the word printed is the tag's name lower-cased |
| TrendAnalyzer.GenerateSummary | frontend/src/lib/TrendAnalyzer.ts:19-31 | the summary opens with the revenue series' tag word, follows it with the net-profit word, and ends with the EBITDA-margin word and then the debt-to-equity word, each in its own fixed phrase |
| TrendAnalyzer.MissingRevenueIsStable | frontend/src/lib/TrendAnalyzer.ts:20-30 | without a revenue series the summary calls revenue stable |
| TrendAnalyzer.GetTrendSummaryLine | frontend/src/lib/TrendAnalyzer.ts:33-46 | the line is Green exactly for an improving series, Red exactly for a declining one, and Amber (yellow) otherwise |
| TrendAnalyzer.SummaryLineColours | frontend/src/lib/TrendAnalyzer.ts:33-46 | green exactly for a strictly rising series of two or more values, red exactly for a strictly falling one |
| SymbolRegistry.StoredText | frontend/src/lib/symbolRegistry.ts:14-15 | the stored text is read only when storage works and holds a non-empty text under the registry key |
| SymbolRegistry.LoadRegistry | frontend/src/lib/symbolRegistry.ts:12-17 | no text, or text that does not parse, gives the empty registry; otherwise the parsed registry |
| SymbolRegistry.UpsertRegistry | frontend/src/lib/symbolRegistry.ts:19-23 | the write succeeds exactly when storage works; only the registry key is written and every other key is untouched |
| SymbolRegistry.LoadAfterUpsert | frontend/src/lib/symbolRegistry.ts:19-23 | after an upsert the loaded registry is the old one with the entry stored under its broker symbol and every other entry unchanged |
| SymbolRegistry.UpsertIdempotent | frontend/src/lib/symbolRegistry.ts:19-23 | upserting the same entry twice leaves storage as one upsert does |
| SymbolRegistry.UpsertOverwrites | frontend/src/lib/symbolRegistry.ts:21 | a later upsert for the same broker symbol replaces the earlier entry |
| PriceChart.PointsGrowWithRange | frontend/src/components/report/StockPriceChart.tsx:43-53 | a longer range shows more bars, and only MAX is unbounded |
| PriceChart.ChooseFetchRange | frontend/src/components/report/StockPriceChart.tsx:56-74 | below a 50-bar average the range is fetched as is; from 50 bars up, every range but MAX is widened |
| PriceChart.FetchRangeNotMonotone | frontend/src/components/report/StockPriceChart.tsx:57-65 | a one-week view fetches one year for a 100-bar average but only three months (66 bars) for a 200-bar average |
| PriceChart.Wider | frontend/src/components/report/StockPriceChart.tsx:56-74 | the wider of two ranges is one of them and at least as wide as both |
| PriceChart.ChooseFetchRangeWidening | frontend/src/components/report/StockPriceChart.tsx:56-74 | the corrected choice agrees with the source below 200 bars and is never narrower than the source's choice |
| PriceChart.FetchRangeWideningMonotone | frontend/src/components/report/StockPriceChart.tsx:56-74 | with the correction a longer average never fetches a narrower range |
| PriceChart.FirstVisibleIndex | frontend/src/components/report/StockPriceChart.tsx:566-567 | the first visible bar leaves exactly the range's bar count after it when the history is that long, index 0 when it is shorter, and 0 for MAX |
| PriceChart.NeedsMaxFetchCases | frontend/src/components/report/StockPriceChart.tsx:565-571 | the lookback guard always fetches MAX for the MAX range with a positive average, never without an average, and never when the history has maxMA bars beyond the visible ones |
| PriceChart.NarrowFetchNeedsMaxRequest | frontend/src/components/report/StockPriceChart.tsx:540-571 | with a 200-bar average, the one-week and one-month fetches as written leave too few bars and trigger the MAX request, while the corrected one-year fetch does not |
| PriceChart.VolumeOf | frontend/src/components/report/StockPriceChart.tsx:121 | a truthy volume is kept and a missing or falsy one reads as 0 |
| PriceChart.Normalized | frontend/src/components/report/StockPriceChart.tsx:121 | a kept point carries its close and the day its date falls on |
| PriceChart.Cleaned | frontend/src/components/report/StockPriceChart.tsx:118-121 | cleaning fails exactly when some date is unreadable |
| PriceChart.CleanedContents | frontend/src/components/report/StockPriceChart.tsx:118-121 | the cleaned points are exactly the normalised points with a finite close |
| PriceChart.SortByDate | frontend/src/components/report/StockPriceChart.tsx:122 | the stable sort by date is a permutation in ascending date order that keeps the input order among equal dates |
| PriceChart.NormalizePoints | frontend/src/components/report/StockPriceChart.tsx:118-122 | normalising fails exactly when some date is unreadable, and otherwise sorts the cleaned points by date |
| PriceChart.NormalizeKeepsFinite | frontend/src/components/report/StockPriceChart.tsx:118-122 | a point is in the result exactly when it is the normalisation of an input point with a finite close |
| PriceChart.LastWith | frontend/src/components/report/StockPriceChart.tsx:132 | the point kept for a date is the last one with that date |
| PriceChart.KeepLast | frontend/src/components/report/StockPriceChart.tsx:129-133 | every kept point comes from the input |
| PriceChart.KeepLastDates | frontend/src/components/report/StockPriceChart.tsx:129-133 | the map keeps every date of the input |
| PriceChart.KeepLastDistinct | frontend/src/components/report/StockPriceChart.tsx:129-133 | the map holds one point per date |
| PriceChart.LaterPointIsLast | frontend/src/components/report/StockPriceChart.tsx:129-133 | the map keeps, for a date, the point written last: a point that no later point shares its date with is the one stored |
| PriceChart.KeepLastIsLast | frontend/src/components/report/StockPriceChart.tsx:132 | each kept point is the last input point with its date |
| PriceChart.MergeByDate | frontend/src/components/report/StockPriceChart.tsx:128-135 | the merged series is strictly ascending by date, covers every date of the lists, and holds for each date the last point given for it |
| PriceChart.MergeLaterListWins | frontend/src/components/report/StockPriceChart.tsx:130-132 | a point of the last list wins its date over every earlier list |
| PriceChart.SortAsc | frontend/src/components/report/StockPriceChart.tsx:142 | the numeric sort is a permutation |
| PriceChart.SortAscSorted | frontend/src/components/report/StockPriceChart.tsx:142 | the numeric sort is ascending |
| PriceChart.Median | frontend/src/components/report/StockPriceChart.tsx:140-145 | the median of nothing is 0; otherwise it lies between the smallest and the largest value |
| PriceChart.MedianOfSorted | frontend/src/components/report/StockPriceChart.tsx:143-144 | the middle value for an odd count and the mean of the two middle values for an even count |
| PriceChart.Gaps | frontend/src/components/report/StockPriceChart.tsx:149-150 | one gap per consecutive pair, the day difference |
| PriceChart.MedianGapDays | frontend/src/components/report/StockPriceChart.tsx:147-152 | fewer than two points give 1; for a strictly ascending series the median gap is at least one day |
| PriceChart.ConsecutiveDaysGap | frontend/src/components/report/StockPriceChart.tsx:147-152 | a series of consecutive days has median gap 1 |
| PriceChart.DayOfWeek | frontend/src/components/report/StockPriceChart.tsx:169 | the weekday number lies in 0..6 |
| PriceChart.FillDays | frontend/src/components/report/StockPriceChart.tsx:161-171 | the filler points are exactly the weekdays strictly between two dates, ascending, each with the earlier point's close and volume |
| PriceChart.ExpandToDailyWeekdays | frontend/src/components/report/StockPriceChart.tsx:155-175 | fewer than two points are returned as they are; otherwise the result opens with the first point |
| PriceChart.ExpandProperties | frontend/src/components/report/StockPriceChart.tsx:155-175 | expansion keeps every point, adds only weekday points filled from the last earlier point, stays strictly ascending, and covers every weekday of the span |
| PriceChart.ExpandConsecutiveWeekdays | frontend/src/components/report/StockPriceChart.tsx:155-175 | a series with no missing weekday is not changed in content |
| PriceChart.EnsureDaily | frontend/src/components/report/StockPriceChart.tsx:177-180 | a median gap of at most 1.5 days keeps the series; otherwise it is expanded, keeping every point and the order |
| PriceChart.EnsureDailyKeepsDaily | frontend/src/components/report/StockPriceChart.tsx:177-180 | a series of consecutive days is left alone |
| PriceChart.BuildPrefix | frontend/src/components/report/StockPriceChart.tsx:186-190 | the prefix array has one more entry than the closes, each the sum of the closes before it |
| PriceChart.SmaBefore | frontend/src/components/report/StockPriceChart.tsx:191-194 | the average is missing exactly when fewer than n bars precede the index |
| PriceChart.SmaIsTrailingMean | frontend/src/components/report/StockPriceChart.tsx:191-194 | the average is the mean of the n closes before the index, excluding the current bar |
| PriceChart.PercentReturn | frontend/src/components/report/StockPriceChart.tsx:203 | with a non-zero base the return times the base is 100 times the change; a zero base gives a non-finite value |
| PriceChart.ToReturns | frontend/src/components/report/StockPriceChart.tsx:200-204 | one return per point, same dates, the first 0 and each the percentage change from the first close |
| PriceChart.ReturnsRecoverCloses | frontend/src/components/report/StockPriceChart.tsx:200-204 | each close is the first close scaled by one plus its return over 100 |
| Middleware.NeedsAuth | frontend/middleware.ts:14-28 | a path needs a login exactly when it equals a protected root or lies below one |
| Middleware.WithQuery | frontend/middleware.ts:31 | the query is appended after a question mark only when non-empty |
| Middleware.Decide | frontend/middleware.ts:16-36 | a logged-in visit to the home page or an /auth path goes to /profile; a logged-out visit to a protected path goes to /auth with the path and query as next; everything else passes |
| Middleware.RootPrefixIsNotEnough | frontend/middleware.ts:28 | /profiles is not protected though it starts with /profile, while /profile/edit and /report are |
| Middleware.OnlyExactCookie | frontend/middleware.ts:18 | any cookie value other than the exact text true is treated as logged out |
| Middleware.RedirectTargetsPassThrough | frontend/middleware.ts:23-33 | the page a redirect sends the user to passes through on the next request, so redirects never loop |
| Middleware.LoggedInNeverAskedToLogIn | frontend/middleware.ts:20-33 | a logged-in user is never sent to the login page and a logged-out user is never sent to /profile |
| AuthRedirect.Test | frontend/src/components/auth/RequireAuth.tsx:43-47 | the three scheme patterns match case-insensitively anywhere in the path, and the fourth matches any backslash |
| AuthRedirect.IsValidInternalPath | frontend/src/components/auth/RequireAuth.tsx:36-51 | a path is accepted exactly when it starts with one slash, not two, and contains no javascript:, data: or vbscript: in any case and no backslash |
| AuthRedirect.RefusesNonInternal | frontend/src/components/auth/RequireAuth.tsx:38-40 | a path that is empty, does not start with a slash, or starts with two slashes is refused |
| AuthRedirect.RefusesScriptScheme | frontend/src/components/auth/RequireAuth.tsx:43-50 | a path holding javascript:, data: or vbscript: in any case, anywhere, is refused |
| AuthRedirect.RefusesBackslash | frontend/src/components/auth/RequireAuth.tsx:43-50 | a path holding a backslash anywhere is refused |
| AuthRedirect.LowerHoldsScheme | frontend/src/components/auth/RequireAuth.tsx:44 | the path /JavaScript: holds javascript: once lower-cased, as the case-insensitive pattern sees it |
| AuthRedirect.RefusesExternal | frontend/src/components/auth/RequireAuth.tsx:36-51 | protocol-relative, absolute, script-scheme and backslash paths are refused |
| AuthRedirect.ProfileIsSafe | frontend/src/components/auth/RequireAuth.tsx:14-51 | the default fallback /profile is itself an accepted path |
| AuthRedirect.NoColonIsSafe | frontend/src/components/auth/RequireAuth.tsx:36-51 | any path with a single leading slash and no colon or backslash anywhere is accepted |
| AuthRedirect.SafeAuthRedirect | frontend/src/components/auth/RequireAuth.tsx:11-29 | a malformed encoding throws; otherwise the decoded target is used when accepted and the fallback otherwise |
| AuthRedirect.DefaultFallbackIsSafe | frontend/src/components/auth/RequireAuth.tsx:14-28 | with the default fallback every redirect lands on an accepted internal path |
| AuthRedirect.NextOf | frontend/src/components/auth/RequireAuth.tsx:66 | the extracted next value is exactly what follows the login path and ?next= |
| AuthRedirect.CreateLoginUrl | frontend/src/components/auth/RequireAuth.tsx:60-67 | the login URL is the login path, then ?next=, then the encoded current path with ?search appended only when the search is non-empty |
| AuthRedirect.LoginUrlRoundTrip | frontend/src/components/auth/RequireAuth.tsx:11-67 | reading back the login URL built for a page and redirecting after login returns to that page when it is an accepted path, and to the fallback otherwise |
| AuthRedirect.ProtectedRootsAreInternal | frontend/src/components/auth/RequireAuth.tsx:38 | every protected root starts with exactly one slash |
| AuthRedirect.MiddlewareNextIsInternal | frontend/src/components/auth/RequireAuth.tsx:36-51 | the next value the middleware builds is accepted exactly when it holds no script scheme and no backslash |
| ApiClient.RawBase | frontend/src/app/lib/api.ts:4 | a set, non-empty environment value is the base; otherwise http://localhost:8000 |
| ApiClient.StripTrailingSlashes | frontend/src/app/lib/api.ts:12 | the result is the text with its trailing run of slashes removed: a prefix that does not end in a slash, followed in the input only by slashes |
| ApiClient.WithApiSuffix | frontend/src/app/lib/api.ts:16 | a base already ending in /api is kept, any other gets /api appended, so the result always ends in /api |
| ApiClient.ApiBase | frontend/src/app/lib/api.ts:4-16 | the API base ends in /api and never in a slash |
| ApiClient.ApiBaseIdempotent | frontend/src/app/lib/api.ts:12-16 | feeding the API base back in as the environment value gives the same base |
| ApiClient.NoDoubleApi | frontend/src/app/lib/api.ts:15-16 | a host configured with /api or /api/ ends up with exactly one /api |
| ApiClient.StripLeadingSlashes | frontend/src/app/lib/api.ts:21 | the result is the path with its leading run of slashes removed |
| ApiClient.ApiUrl | frontend/src/app/lib/api.ts:20-25 | the URL is the base, one slash, and the path without leading slashes, so no double slash follows the base |
| ApiClient.ApiUrlIgnoresLeadingSlash | frontend/src/app/lib/api.ts:21-22 | a leading slash on the path makes no difference |
| ApiClient.ParseSafe | frontend/src/app/lib/api.ts:46-53 | empty or missing text is null, parsable text is its JSON value, and other text is kept as a string |
| ApiClient.RefreshAccessToken | frontend/src/app/lib/api.ts:34-93 | a thrown or failed refresh clears the stored token and returns null; a returned token is a string, is stored, and is the access_token of a successful reply; a successful reply without a token keeps the stored token and returns null; a truthy non-string token makes the log line throw, so the token is cleared and null returned; a printable stored token stays printable |
| ApiClient.AuthHeader | frontend/src/app/lib/api.ts:40-110 | reading the token throws exactly when it is truthy and not a string; otherwise a header is sent exactly when the token is truthy, and it is Bearer followed by the token |
| ApiClient.ErrorValue | frontend/src/app/lib/api.ts:148-151 | a non-empty string body is the message, else the body's detail, else its message, else the status code and text |
| ApiClient.Settle | frontend/src/app/lib/api.ts:145-156 | a network error fails; otherwise the call succeeds exactly when the status is 2xx, a success is never null or undefined, and an empty success body gives the empty object |
| ApiClient.ApiFetch | frontend/src/app/lib/api.ts:98-157 | a stored token that cannot be printed rejects before any request; otherwise one or two requests go out, the first with the stored token; a refresh happens exactly on a first 401; the request is retried exactly when the refresh returned a token, and the retry carries it; the result is settled from the reply to the last request sent; without a refresh the token is unchanged, with one it is what the refresh stored |
| ApiClient.FailedRefreshClearsToken | frontend/src/app/lib/api.ts:68-143 | after a 401 and a failed refresh the token is cleared, nothing is retried, and the call fails |
| ApiClient.No401NoRefresh | frontend/src/app/lib/api.ts:98-133 | without a 401 (or without any request) the refresh endpoint plays no part and the first reply decides the result |
| ApiClient.NonStringRefreshTokenDropped | frontend/src/app/lib/api.ts:34-91 | a successful refresh whose access_token is truthy but not a string leaves no token and no retry, and the call fails |
| ApiClient.ErrorMessagePrecedence | frontend/src/app/lib/api.ts:147-153 | an unparsable error body is thrown as it is; a detail field wins; then a message field; then the status line |
| ApiClient.EmptyErrorBody | frontend/src/app/lib/api.ts:145-151 | an empty or unreadable error body gives the status line |
| Breadcrumbs.CapitalizeWords | frontend/src/components/ui/Breadcrumbs.tsx:21 | each character is upper-cased exactly when it is a word character starting a word, and every other character is kept |
| Breadcrumbs.CapitalizeIdempotent | frontend/src/components/ui/Breadcrumbs.tsx:21 | capitalising twice is the same as capitalising once |
| Breadcrumbs.Titleize | frontend/src/components/ui/Breadcrumbs.tsx:18-22 | a mapped segment gets its fixed title; any other keeps its length, has its dashes turned into spaces, agrees with the input up to case, and starts every word with a capital |
| Breadcrumbs.TitleizeSlug | frontend/src/components/ui/Breadcrumbs.tsx:18-22 | net-debt is titled Net Debt |
| Breadcrumbs.NonEmpty | frontend/src/components/ui/Breadcrumbs.tsx:26 | the filter keeps no empty part, never lengthens the list, and leaves an all-non-empty list alone |
| Breadcrumbs.NonEmptyCounts | frontend/src/components/ui/Breadcrumbs.tsx:26 | the filter keeps every non-empty part exactly as often as it occurs and drops every empty one |
| Breadcrumbs.NonEmptyAppend | frontend/src/components/ui/Breadcrumbs.tsx:26 | filtering a concatenation is filtering each side and concatenating, so kept parts stay in the input's order |
| Breadcrumbs.PathOrRoot | frontend/src/components/ui/Breadcrumbs.tsx:26 | a missing or empty pathname is read as / |
| Breadcrumbs.Segments | frontend/src/components/ui/Breadcrumbs.tsx:26 | every segment is non-empty and holds no slash |
| Breadcrumbs.SegmentsOfRoot | frontend/src/components/ui/Breadcrumbs.tsx:26 | the root, an empty and a missing pathname give no segments |
| Breadcrumbs.SegmentsOfCanonicalPath | frontend/src/components/ui/Breadcrumbs.tsx:26 | the segments of /a/b/... are a, b, ... |
| Breadcrumbs.SegmentsIgnoreTrailingSlash | frontend/src/components/ui/Breadcrumbs.tsx:26 | a trailing slash adds no segment |
| Breadcrumbs.Crumbs | frontend/src/components/ui/Breadcrumbs.tsx:29-33 | one crumb per segment, titled from it, linking to the path made of the segments up to and including its own, and only the last is marked last |
| Breadcrumbs.CrumbLinkExtends | frontend/src/components/ui/Breadcrumbs.tsx:30 | each crumb's link is the previous crumb's link plus one slash and its own segment |
| Breadcrumbs.CrumbLinkFirst | frontend/src/components/ui/Breadcrumbs.tsx:30 | the first crumb links to its own segment below the root |
| Breadcrumbs.CrumbLinkLast | frontend/src/components/ui/Breadcrumbs.tsx:30 | the last crumb links to the whole path |
| Breadcrumbs.Trail | frontend/src/components/ui/Breadcrumbs.tsx:25-33 | one crumb per segment of the pathname |
| Breadcrumbs.TrailOfCanonicalPath | frontend/src/components/ui/Breadcrumbs.tsx:25-33 | the trail of /a/b/... is the crumbs of a, b, ... |
| Breadcrumbs.LastCrumbIsPage | frontend/src/components/ui/Breadcrumbs.tsx:29-33 | for a canonical path the last crumb is marked last and links to the page itself |
| PortfolioUtils.SafeParseFloat | frontend/src/utils/utils-portfolio.tsx:54-59 | null, undefined, empty text and anything reading as NaN give the default; otherwise the number, or the parsed text |
| PortfolioUtils.SafeParseFloatNeverNaN | frontend/src/utils/utils-portfolio.tsx:54-59 | with a non-NaN default the result is never NaN, and a non-NaN number is returned as it is |
| PortfolioUtils.FormatNumber | frontend/src/utils/utils-portfolio.tsx:17-27 | missing, empty and NaN values print 0; every other value prints as its localised number |
| PortfolioUtils.FormatNumberViaSafeParse | frontend/src/utils/utils-portfolio.tsx:17-59 | for a readable value the formatter prints what the safe parser reads |
| PortfolioUtils.FormatCurrency | frontend/src/utils/utils-portfolio.tsx:4-15 | falsy values, the text 0 and NaN readings print the zero-rupee text; everything else prints as rupees |
| PortfolioUtils.CurrencyOnlyForNonZero | frontend/src/utils/utils-portfolio.tsx:4-15 | any other output comes from a truthy value with a number, formatted as rupees |
| PortfolioUtils.FormatPercent | frontend/src/utils/utils-portfolio.tsx:29-42 | dashes exactly for a falsy non-zero value or a NaN reading; otherwise a badge, positive exactly when the number is at least 0, showing it to two places with a percent sign; 0 itself is a positive badge |
| PortfolioUtils.GetPnLColor | frontend/src/utils/utils-portfolio.tsx:44-51 | grey exactly when the percent formatter shows dashes; otherwise green for a number at least 0 and red below |
| PortfolioUtils.PercentAgreesWithPnL | frontend/src/utils/utils-portfolio.tsx:29-51 | the percent badge and the P&L colour always agree |
| PortfolioUtils.MagnitudeOf | frontend/src/utils/utils-portfolio.tsx:65-73 | zero, crore at or above 1e7 in magnitude, lakh from 1e5, thousand from 1e3, plain below, with each band exactly where the thresholds put it |
| PortfolioUtils.ScaleDown | frontend/src/utils/utils-portfolio.tsx:68-72 | a finite number is divided by the unit and an infinity is kept |
| PortfolioUtils.FormatLargeNumber | frontend/src/utils/utils-portfolio.tsx:62-76 | the safe-parsed number prints 0 when zero, in its band with Cr, L or K after scaling to two places, and below 1000 through the number formatter |
| PortfolioUtils.MantissaRange | frontend/src/utils/utils-portfolio.tsx:67-72 | the shown lakh and thousand figures lie in [1, 100) in magnitude and a crore figure is at least 1 |

## Left out

- SymbolRegistry.LoadRegistry: the codec's parse gives a registry or nothing, so stored text that parses to something other than an object is not modelled. For `null` or a primitive, `loadRegistry` returns that value (symbolRegistry.ts:15) and `upsertRegistry` then throws a TypeError when it sets the entry (symbolRegistry.ts:21). For an array, the stored text keeps only entries whose symbol is an array index. A broker symbol `__proto__` replaces the prototype instead of adding a key, so the entry is not stored; registry keys are treated as plain map keys.
- SymbolResolver.FilterSuggestions: the limit is always passed explicitly; the default of 10 (symbolResolver.ts:64) applies only to callers that omit it, and `SymbolResolver.FilterSuggestions(q, list, 10)` is that call.
- Floating point: numbers are reals. The model has no rounding error and no binary representation, and it does not tell -0 from 0. `Numeric.Float` adds NaN and the infinities only where the source tests for them (`isFinite`, `Number.isFinite`, `math.isnan`).
- Rounding, formatting and parsing are passed in as functions: Python's `round` (banker's rounding), fractional `**` and `float(str)`, and JavaScript's `parseFloat`, `Number`, `toFixed`, `toLocaleString`, `Intl.NumberFormat`, `JSON.parse`, `JSON.stringify`, `String(v)`, `encodeURIComponent` and `decodeURIComponent`. Their exact digits belong to the language runtimes, not to this code.
- Case mapping is ASCII only (`Text.Upper`, `Text.Lower`). Broker symbols and tickers are ASCII in practice, and full Unicode case mapping is a runtime table.
- Text.IsSpace: whitespace is ASCII only, so `Text.Trim` (JavaScript `trim`, Python `strip`) does not remove U+00A0, U+FEFF, U+2028, U+2029 or the other Unicode space characters the runtimes remove. The inputs are typed or exported text where these are rare, and the runtimes' whitespace tables are not part of this code.
- Dates are day numbers, and `pd.to_datetime`, `new Date(...)`, `formatDDMMYY` and `toISODate` are passed in as functions. Calendar arithmetic and time zones belong to the runtimes.
- Database and network access: the FX cache is a map, the transaction list is a sequence, and the yfinance closes, the current prices and the server's replies are parameters. `fetch`, SQLAlchemy sessions and commits are I/O.
- `localStorage` and cookies are maps, and an unusable storage is a flag. The browser APIs themselves are I/O.
- Logging (`console.log`, `console.warn`, `print`, the `[apiFetch]` traces) is left out; the one place where it changes an outcome, the `[AUTH]` lines calling `substring` on a token that is not a string, is modelled (`ApiClient.Loggable`).
- ApiClient.SubstringError: the text follows the V8 engine's wording for the `TypeError`; other engines word it differently, and only the failure itself, not its text, is what callers can rely on.
- React rendering, hooks and styling: the JSX of every component, `useAuthRedirect`, the chart components, `cssVar` and `getChartColors`, and the `PerformanceMetrics` component. They produce views, not data.
- The `setTimeout` delay in `recalculateExecutiveSummary` is a scheduling detail; the result is that of `calculateExecutiveSummary`, which is modelled.
- `getMe` and `updateProfile` in frontend/src/app/lib/api.ts are thin wrappers over the modelled `apiFetch`. `apiPublic`, `login` and `logout` (api.ts:160-258) call `fetch` directly with their own error handling and are not modelled; `login` obtains its token through the modelled `refreshAccessToken`, and `logout` clears the stored token.
- The request headers and `Content-Type` handling of `doFetchWithAuth` are left out because they do not affect the URL, the retry or the result.
- `loadTickers` in the symbol resolver only fetches `tickers.json`, so the list is a parameter of the scorer.
- Workbook loading (`load_workbook`, the "Data Sheet" lookup, cell iteration) is I/O. The parser works on a sheet given as rows of cells.
- `extract_meta`: its IndexError for a sheet without a META row and its ValueError for a one-column sheet, where naming two columns is a length mismatch, are modelled (`UploadParser.HasMeta`, `UploadParser.MetaReadable`); the label/value pairs it reads arrive as a map.
- `extract_quarters` is left out because `parse_excel` does not call it; it reads the "Quarters" table through `extract_table`.
- Breadcrumb titles looked up through `TITLE_MAP` treat only the map's own keys as known. A segment such as `constructor`, which reaches `Object.prototype` in JavaScript, is not modelled.
- The superseded metric calculators and the second copy of `filterSuggestions` in the transactions table are left out because nothing in the modelled flow calls them.
- Dcf.CalculateDcf: requires at least one year, non-zero shares, an interest rate other than -100% and other than the terminal growth, and a non-zero enterprise value for the terminal weight. The source divides by these or leaves `fcf` unbound, so it raises on such inputs, and the model rules them out instead of modelling the exception.
- Sensitivity.DcfSensitivity: takes the same preconditions as the DCF, for the same reason.
- PriceChart.ExpandToDailyWeekdays: requires strictly ascending dates, because the source's fill loop does not terminate otherwise. Its own contract states only the first point; the full properties are in `PriceChart.ExpandProperties`.
- Positions.ComputePositions: the contract states the shape of the report (open positions only, weights present exactly with a positive total value). The sums behind the totals and the weights are stated by `Positions.WeightsSumTo100` and the per-position lemmas, not by this member.
- Fx.GetFxRate: a failure is the fixed error "FX rate not available"; the source writes the pair and the date into the message, and the model keeps only this fixed text.
- SafeMetricsWrapper.SafeCalculateMetrics: the statement tables are taken as dicts; the source's `None` and non-dict inputs are not modelled.
- ExecutiveSummary.CalculateExecutiveSummary: the contract covers the valuation gap, the recommendation, the score range, the highlight counts and the missing-phase defaults. The highlight texts are built with the passed-in formatter and are not stated.
- Breadcrumbs.Trail: the contract states the length only; the crumbs themselves are stated by `Breadcrumbs.TrailOfCanonicalPath`.
- MetricsCalculator.CleanCell: requires a cell that `float()` reads as finite (or one it rejects or that is zeroed first). The cleaned rows are sequences of reals, so a cell Python reads as inf or nan (`float('inf')`, the strings "inf" or " nan ") is outside the model; Python would carry it through the sums and ratios.
- MetricsCalculator.GetValues: requires every cell of the table to be finite once cleaned, for the reason given for `CleanCell`.
- MetricsCalculator.ReadRaw: requires finite cells in all four statement tables, for the reason given for `CleanCell`.
- MetricsCalculator.MetaFloat: requires meta values whose `float()` is finite when it succeeds; a market cap or price of inf or nan is outside the model.
- MetricsCalculator.CalculateMetrics: takes the finiteness requirements of `ReadRaw` and `MetaFloat`.
- MetricsCalculator.CalculateMetrics: the result models the keys the valuation, sensitivity and EPS flows read (the series, the TTM figures, the margins and growth rates, net debt, EV, tax, capex and depreciation percentages, the CAGRs, the share count and the default assumptions). The ratio keys `roce`, `roe`, `ttm_roce`, `ttm_roe`, `interest_coverage`, `ttm_interest_coverage`, `debt_to_equity`, `fcf_margin`, `ttm_pe`, `ttm_pb`, `book_value`, `net_asset_values_per_share(_last)`, `peg_ratio`, the `div_*` keys, `price_to_sales`, `ev_to_ebit`, `ev_to_ebitda`, `q_ebitda_margin` and the cash-flow rows `cf_opa`, `cf_inva`, `cf_fina`, `cf_net` (metrics_calculator.py:163-415) are left out: each is a `safe_divide` or rounding of series the model already reads, and no backend operation modelled here reads them back. The executive summary, which does read some of them (`roe`, `debt_to_equity`), takes them as inputs.

## Findings

| source | as written | input that shows it | evidently intended | confidence | as-written member | corrected member |
|---|---|---|---|---|---|---|
| backend/routers/upload.py:67-132 | the upload route builds its assumptions with `latest_net_debt` and then calls `SensitivityInput(**assumptions)` itself (line 91); that model requires `net_debt` (backend/routers/sensitivity.py:9), so validation raises and the route's own `except` (line 131) turns every upload into a 400 reply | any workbook that parses and gets through `calculate_metrics` and `run_dcf`: the upload still answers 400 with the missing `net_debt` | the sensitivity input receives the net debt under `net_debt`, and the upload returns its results | not executed | Sensitivity.UploadAssumptionsRejected | Sensitivity.CorrectedPayloadAccepted |
| frontend/src/components/report/StockPriceChart.tsx:57-65 | `chooseFetchRange` bumps 1W to 3M for a 200-bar average but to 1Y for a 100-bar one, so a longer average fetches less history. The chart still gets its lookback: `loadStock`'s guard (lines 565-571) finds too few bars before the first visible one and fetches `MAX` as well, so the cost is an extra `MAX` request that the one-year fetch would not need (`PriceChart.NarrowFetchNeedsMaxRequest`) | range 1W: maxMA 100 gives 1Y, maxMA 200 gives 3M; a 66-bar history puts the first visible bar at index 61, below 200, so a `MAX` request follows | a longer moving average never fetches a narrower range | not executed | PriceChart.FetchRangeNotMonotone | PriceChart.FetchRangeWideningMonotone |
