# Stock recommendation dashboard — verified model

This project models the core of a small stock-research dashboard. A Python
server prepares stock records:
- it sorts each stock's weekly closing prices newest first;
- it attaches to every analyst recommendation a badge class and three prices matched by date.

In the browser, two scripts consume those records:
- An analytics script judges every recommendation against the later price
  history. Recommendations are judged at five horizons (3 months, 6 months, 1, 2 and 5 years).
  The script then aggregates the verdicts per sentiment and per horizon.
- The dashboard script filters the stock list and fills the filter drop-downs.
  It also maps sentiments and returns to colour classes.

The modules follow the program's structure:

- `Records`: the stock, price and recommendation records.
- `Sentiments`: the five labels, recognised case-insensitively.
- `Text`: ASCII case mapping, substring search and the string order of `sort()`.
- `Counting`: counting the elements of a sequence that satisfy a predicate.
- `StableSort`: Python's stable `sort(reverse=True)`.
- `PriceMatcher`: `findClosestPrice` and `findPriceAfterDays`.
- `Evaluator`: `calculateReturn`, the per-horizon thresholds and `analyzeRecommendation`.
- `Aggregator`: `analyzeRecommendations` and its totals.
- `PeriodAccuracy`: `determineAccuracy` and `displayPeriodAccuracy`.
- `Server`: `get_sentiment_class` and `process_stock_data`.
- `Dashboard`: the helpers of the dashboard script.

Code that loops and updates state is modelled as methods with loop invariants.
The methods are:
- `AnalyzeRecommendation`, `Record`, `RecordStock`, `AnalyzeRecommendations` and `DisplayPeriodAccuracy`;
- `MatchPrices` and `ProcessStockData`, which sorts an array in place;
- `SortStrings` and `InitializeFilters`.

Most methods are proved equal to a declarative specification function, and the
source's promises are proved as lemmas about those functions. `SortStrings` and
`InitializeFilters` are specified by properties instead: the output is strictly
ascending and holds exactly the expected elements.

Data is represented as follows:
- Calendar dates are day numbers. ISO date strings compare like the days they denote.
- Prices are reals. `None` stands for a missing price. In the browser a close that is not a number is treated like a missing one; the server's handling of such a close is under "Left out".
- A recommendation keeps its raw date text and the day it denotes.

## Model

| member | source | states |
|---|---|---|
| Sentiments.Parse | static/js/analytics.js:290-318 | a label is recognised exactly when it equals one of the five upper-case labels, and the kind found has that label |
| PriceMatcher.FindClosestPrice | static/js/analytics.js:351-369 | no result exactly when every price is more than 5 days from the target; otherwise the result lies within 5 days and is the first, in list order, of the nearest prices |
| PriceMatcher.NearestIsFirstNearest | static/js/analytics.js:358-368 | the running-closest fold with strict `<` returns the first of the nearest eligible prices, and nothing when none is eligible |
| PriceMatcher.FirstNearestUnique | static/js/analytics.js:364 | the first nearest price is unique |
| PriceMatcher.FindPriceAfterDays | static/js/analytics.js:371-382 | no result exactly for an empty list; otherwise the first price nearest to start + days, with no window |
| Evaluator.Round2 | static/js/analytics.js:10 | `toFixed(2)`: the result has two decimals and lies within 0.005 of its argument; an exact half rounds away from zero (upwards for a non-negative argument, downwards for a negative one), which fixes the result uniquely |
| Evaluator.CalculateReturn | static/js/analytics.js:6-11 | a return exists exactly when both prices are present and non-zero; it is the percentage change rounded to two decimals |
| Evaluator.Judge | static/js/analytics.js:290-318 | no verdict exactly when the sentiment is not one of the five labels; otherwise the verdict follows the threshold table, short term (3M, 6M) / long term: STRONG BUY > 5 / > 15, BUY > 3 / > 10, HOLD absolute value ≤ 10 / > 0, SELL < -3 / < -10, STRONG SELL < -5 / < -15 |
| Evaluator.JudgeStrongImpliesPlain | static/js/analytics.js:290-315 | wherever STRONG BUY (STRONG SELL) is right, BUY (SELL) is right too |
| Evaluator.JudgeBuySellExclusive | static/js/analytics.js:290-315 | a buy-side and a sell-side call are never both right on the same return |
| Evaluator.JudgeMonotone | static/js/analytics.js:290-315 | a right buy-side call stays right for a higher return, a right sell-side call for a lower one |
| Evaluator.AnalyzeRecommendation | static/js/analytics.js:222-349 | the loop over the five horizons produces exactly the declarative analysis |
| Evaluator.AnalyzeEcho | static/js/analytics.js:333-336 | the analysis carries the ticker, the raw date and the upper-cased sentiment |
| Evaluator.AnalyzeShape | static/js/analytics.js:237-272 | the error is set exactly when the returns are empty; otherwise every horizon has a return entry |
| Evaluator.AnalyzeShortCircuit | static/js/analytics.js:237-252 | the error is set exactly when the date is invalid or no price lies within 5 days of it, and then nothing is priced, valid or accurate |
| Evaluator.AnalyzeSummary | static/js/analytics.js:280-331 | verdicts exist exactly at horizons with a return; valid means some return; the short- and long-term flags are "some verdict true" in their groups; accurate is their disjunction and implies valid |
| Evaluator.AnalyzeUnrecognised | static/js/analytics.js:316-330 | an unrecognised sentiment gets only null verdicts and is never accurate |
| Evaluator.AnalyzeHorizon | static/js/analytics.js:262-319 | each horizon's return is computed from the price within 5 days of date + horizon, and its verdict is the threshold test of that return |
| Evaluator.KindOfLabel | static/js/analytics.js:228 | any letter case of a label is recognised as that label |
| Evaluator.ScenarioBuyRight | static/js/analytics.js:262-330 | a BUY followed by +6% after 91 days is right at 3 months, has no 6-month return and is accurate |
| Evaluator.ScenarioHoldFlatYear | static/js/analytics.js:301-305 | a HOLD with a flat price over a year is wrong at 1 year, which requires a positive return |
| Evaluator.ScenarioUnrecognisedValid | static/js/analytics.js:316-331 | an unrecognised sentiment with a price history is valid but has a null verdict and is not accurate |
| Aggregator.AllKindsComplete | static/js/analytics.js:167-173 | every sentiment kind is among the five keys the per-type table is initialised with |
| Aggregator.RecDetails | static/js/analytics.js:192-198 | one analysis per recommendation that has a date and a sentiment |
| Aggregator.Record | static/js/analytics.js:199-214 | adding one analysis keeps the counters equal to the summary of the details |
| Aggregator.RecordStock | static/js/analytics.js:192-215 | one stock's recommendations extend the details and keep the counters equal to their summary |
| Aggregator.AnalyzeRecommendations | static/js/analytics.js:160-220 | the result is the summary of the analyses of all admitted recommendations, in input order |
| Aggregator.DetailsRecorded | static/js/analytics.js:193-214 | every detail has a date and sentiment, is accurate only if valid and recognised, and is valid when it has any return |
| Aggregator.DetailsComplete | static/js/analytics.js:184-215 | every admitted recommendation of every stock appears among the details |
| Aggregator.SummaryCounts | static/js/analytics.js:199-212 | the buckets cover the five labels with total = valid and correct ≤ valid; accurate is the sum of the correct counts; valid recommendations are the bucket sums plus unrecognised valid ones; accurate ≤ valid ≤ total |
| Aggregator.ReportAccurate | static/js/analytics.js:201-211 | the accurate count is the number of accurate details |
| PeriodAccuracy.DetermineAccuracy | static/js/analytics.js:383-399 | only a present return and a recognised sentiment can be accurate; given a return, STRONG BUY is accurate exactly at ≥ 10%, BUY at ≥ 5%, HOLD when its absolute value is below 5%, SELL at ≤ -5% and STRONG SELL at ≤ -10% |
| PeriodAccuracy.DetermineAccuracyShortTerm | static/js/analytics.js:384-401 | an accurate result here is also right at the 3- and 6-month thresholds |
| PeriodAccuracy.DetermineAccuracyLongTermDiffers | static/js/analytics.js:384-401 | the chart thresholds disagree with the 1-year verdicts both ways (BUY at +6%, HOLD at +7%) |
| PeriodAccuracy.KeysMeaning | static/js/analytics.js:682-687 | a sentiment has a per-type entry exactly when some counted detail carries it |
| PeriodAccuracy.StatBounds | static/js/analytics.js:675-699 | correct ≤ total ≤ number of details; each per-type entry is non-empty, within the total and has correct ≤ total |
| PeriodAccuracy.TabulateCounts | static/js/analytics.js:675-699 | counting detail by detail yields the declarative per-horizon statistics |
| PeriodAccuracy.DisplayPeriodAccuracy | static/js/analytics.js:662-699 | the nested loops produce, for every horizon, the statistics of all details |
| PeriodAccuracy.UnpricedCounted | static/js/analytics.js:677-679 | an analysis without an initial price passes the `!== null` test at every horizon, is never accurate there and is not resolved |
| PeriodAccuracy.UnpricedCountedExample | static/js/analytics.js:678 | one unpriced BUY counts once at every horizon with no correct call, while the corrected count is zero |
| PeriodAccuracy.ResolvedStat | static/js/analytics.js:675-699 | the corrected statistics count only computed returns: correct ≤ total ≤ number of details, one per-sentiment entry for each sentiment with a computed return, each counting at least one analysis and no more than the total, with correct ≤ total |
| PeriodAccuracy.PeriodTotals | static/js/analytics.js:675-699 | the as-written total is the corrected total plus the number of unpriced analyses; the corrected total never exceeds the number of valid recommendations |
| StableSort.SortDescCorrect | app.py:101 | the result is sorted newest first, is a permutation of the input and keeps input order among equal keys |
| Server.GetSentimentClass | app.py:55-65 | buy-side labels give "bg-success", HOLD "bg-warning text-dark", sell-side "bg-danger", anything else "bg-secondary", whatever the letter case |
| Server.FirstWhere | app.py:120-133 | the index of the first price meeting a date condition, with no earlier match, or none at all |
| Server.FirstWherePrefix | app.py:120-137 | once a prefix holds a match, the rest of the list cannot change the first match, so the early `break` loses nothing |
| Server.MatchPrices | app.py:119-137 | the loop with its early exit yields each slot's first match in list order, or the conversion failure of a first match |
| Server.ProcessAll | app.py:104-160 | at most one processed entry per recommendation |
| Server.ProcessAllComplete | app.py:139-152 | every recommendation whose processing succeeds is among the processed entries |
| Server.ProcessStockData | app.py:90-178 | the result is the declarative processed stock; the price array is sorted newest first in place unless the input is rejected first |
| Server.FirstOnOrBeforeIsNewest | app.py:124-129 | in the sorted list the first price on or before a day is the newest such price |
| Server.ProcessedPrices | app.py:124-148 | a kept recommendation has a non-zero price at report from the newest price on or before its date, and its 3-month-before price comes from the newest price at least 90 days earlier (none exactly when no such price exists) |
| Server.PriceAfterIsNewest | app.py:132-133 | as written, the 3-month-after slot is filled exactly when the newest price overall is late enough, and then holds that newest price |
| Server.LastWhere | app.py:131-133 | the index of the last price meeting a date condition, with no later match, or none at all |
| Server.LastOnOrAfterIsEarliest | app.py:131-133 | in the sorted list the last price on or after the target is the earliest price on or after it, and exists exactly when some price is late enough |
| Server.PriceAfterExample | app.py:131-152 | prices on d + 400, d + 91 and d - 7: the recommendation is kept with the d + 400 close as its 3-month-after price, while the earliest price after the target is the d + 91 one |
| Server.ProcessAllOrigin | app.py:139-150 | every processed entry is the processing of one of the input recommendations |
| Server.ProcessStockResult | app.py:163-173 | the returned prices are the input sorted newest first; the returned recommendations are the processed ones sorted newest first, at most one per input |
| Server.ProcessStockEntries | app.py:139-163 | every returned recommendation has a non-zero price at report and comes from an input recommendation |
| Server.ProcessStockComplete | app.py:139-163 | conversely, every input recommendation whose processing succeeds is among the returned ones |
| Dashboard.SwitchGroup | static/js/main.js:836-847 | the case-insensitive switch both badge helpers share picks a colour family exactly for the five recognised labels, the same family the label's kind belongs to, and the default branch for anything else or a missing sentiment |
| Dashboard.GetSentimentClass | static/js/main.js:835-848 | buy-side labels give "bg-success text-white", HOLD "bg-warning", sell-side "bg-danger text-white", anything else or a missing sentiment "bg-secondary text-white" |
| Dashboard.GetSentimentColor | static/js/main.js:616-629 | the same three groups map to green, amber and red, and anything else to grey |
| Dashboard.ClassMatchesColour | static/js/main.js:616-629 | two sentiments share a badge class exactly when they share a marker colour |
| Dashboard.SentimentClassIgnoresCase | static/js/main.js:836 | upper-casing a sentiment first changes neither its class nor its colour |
| Dashboard.SentimentClassesAgree | static/js/main.js:835-848 | the dashboard's badge classes separate sentiments exactly as the server's `get_sentiment_class` does |
| Dashboard.GetReturnClass | static/js/main.js:851-856 | muted exactly for "N/A" or unparsable text, green exactly for a change ≥ 0, red exactly for a negative change |
| Dashboard.ReturnClassMonotone | static/js/main.js:855 | a larger change never gets a worse class |
| Dashboard.ApplyFilters | static/js/main.js:768-779 | every kept stock passes the market, sector and search conditions, and every stock that passes them is kept |
| Dashboard.ApplyFiltersSelects | static/js/main.js:768-779 | the kept stocks sit at increasing positions of the input, and every matching position is among them |
| Dashboard.SearchNarrows | static/js/main.js:766-776 | extending the search text can only remove stocks from the result |
| Dashboard.Collect | static/js/main.js:175-178 | the set holds exactly the present, non-empty values of the field |
| Dashboard.SortStrings | static/js/main.js:186-192 | the list is strictly ascending and holds exactly the set's elements |
| Dashboard.InitializeFilters | static/js/main.js:171-192 | each option list is strictly ascending and holds exactly the present, non-empty markets (sectors) of the stocks |

## Left out

- Everything that touches the page or the browser, which is rendering or I/O rather than logic:
  - the DOM, Bootstrap modals, DataTables and Chart.js (`displayAnalytics`, `displayPeriodCharts`, `updateAccuracyChart`, `createPriceColumns`, `displayData`);
  - event listeners, `debounce` and `sessionStorage`.
- Network and file I/O, which are outside the logic:
  - `fetch`, the FastAPI routes and reading the JSON data file;
  - yfinance, `process_recommendations` and the clock-based cache refresh.
- Logging through `console.log` and `print`, which has no effect on results.
- Date parsing and time zones are not modelled; dates are day numbers:
  - `new Date`, `setDate`, `strptime` and `strftime`;
  - daylight-saving effects on millisecond differences;
  - the browser and the server accept different date formats, but the model gives each recommendation a single parsed day.
- IEEE floating point is not modelled; prices and returns are reals. `toFixed(2)` is rounding half away from zero, and `parseFloat` of its output is taken as exact.
- Case mapping covers the ASCII letters only. String order is by character, which matches JavaScript's code-unit order only inside the Basic Multilingual Plane.
- static/js/analytics.js:13-31 declares a second `getReturnClass` and `getSentimentClass`. Both scripts are classic scripts that declare these as globals, so the pages share one binding, and the script loaded last defines it. The page template that fixes the load order is not part of this model. The model follows static/js/main.js:835-856. If static/js/analytics.js loads last, its `getReturnClass` returns an empty class for the dashboard's percentage strings such as "5.00%", because `isNaN` is true for them.
- The global `stockData` becomes a parameter: a sequence of (ticker, stock) pairs in the order `Object.entries` yields them.
- A sentiment that is not a string makes `toUpperCase` throw in the browser; the model represents only present or missing sentiments.
- Aggregator.AnalyzeRecommendations: the per-type table is keyed by the five labels as a datatype rather than by their strings. The result is the same, because only the five labels ever reach it.
- PeriodAccuracy.DetermineAccuracy: the return is taken as the value of the `toFixed` string it receives, so a zero return ("0.00") counts as present. A numeric zero is never passed.
- PeriodAccuracy.DisplayPeriodAccuracy requires every detail to carry a sentiment, because the analyses always carry the upper-cased string. `determineAccuracy` returns before it calls `toUpperCase` when the return is falsy, so a missing sentiment would throw only at a horizon with a return; elsewhere it would be tallied under the key "undefined". That case is not modelled.
- Server.ProcessStockData:
  - `current_quote` and `fundamentals` are passed through unchanged and are not represented.
  - A missing key is represented, but a key present with a null value is not. Such a key skips the `'N/A'` default, and a null `company_info` fails only when the result is built.
  - The returned price list is the caller's own list object. The model returns its contents, so aliasing is not captured.
  - A price without a `date` key raises and is not represented.
- Server.ProcessStockData does not represent a `NaN` close. The server reads one from JSON, converts it with `float` without error, and keeps the recommendation because `NaN` is truthy. The model has no `NaN` value, so such a price cannot be stated.
- Server.ProcessStockData models the code as written: its 3-month-after price follows the finding below. The corrected definition is `Server.LastWhere`.
- Dashboard.GetReturnClass takes the result of `parseFloat` as a parameter (None for NaN), because the `parseFloat` grammar is not modelled.
- Dashboard.InitializeFilters treats only missing and empty strings as falsy. Other non-string JSON values are not represented.

## Findings

| source | as written | input that shows it | evidently intended | confidence | as-written member | corrected member |
|---|---|---|---|---|---|---|
| static/js/analytics.js:678 | `return_percent !== null` is true for an analysis without an initial price, whose returns object is empty (`undefined !== null`) | a BUY with no price within 5 days of its date: every horizon counts it once, never as correct | count only analyses with a computed return at that horizon | not executed | PeriodAccuracy.UnpricedCountedExample | PeriodAccuracy.ResolvedStat |
| app.py:132-133 | the first price on or after date + 90 days in the newest-first list is the newest price of all | a recommendation on day d with prices on d + 400, d + 91 and d - 7: it is kept, and its 3-month-after price is the d + 400 close | the price closest after the target, i.e. the earliest one on or after it | not executed | Server.PriceAfterExample | Server.LastOnOrAfterIsEarliest |
