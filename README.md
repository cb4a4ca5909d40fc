# Personal-finance dashboard: verified model of its table and projection logic

The dashboard (`app.py`) keeps, per user, four sheets: US holdings, Taiwan holdings, fixed assets and liabilities. From them it derives:

- an asset table in TWD, and the net worth, total assets, total liabilities and monthly burn;
- an expected annual return, as a value-weighted average of per-category rates;
- a FIRE projection up to age 65, of capital and real estate against four spending tiers and the user's own target.

Around this it imports rows from uploaded files, refreshes market prices and names, keeps a once-a-day net-worth history, and lets the user edit the sheets. It also reads the user's FIRE settings and checks logins.

This project models that logic in Dafny, one module per concern:

| file | module | models |
|---|---|---|
| `text.dfy` | `Text` | Python's `strip`, `upper`, `lower` and the substring test `k in s` |
| `records.dfy` | `Records` | the sheet rows, the derived asset row, column sums |
| `valuation.dfy` | `Valuation` | the three valuation loops and the headline totals |
| `estimator.dfy` | `ReturnEstimator` | `predict_portfolio_return_detail` |
| `projection.dfy` | `Projection` | `calculate_fire_curves_advanced` and the split of net worth that feeds it |
| `import.dfy` | `FileImport` | the column recognition and row conversion of `parse_file` |
| `refresh.dfy` | `PriceRefresh` | `update_portfolio_data`, with the market data as oracles |
| `history.dfy` | `History` | the skip-if-dated append of `save_daily_record_cloud` |
| `editor.dfy` | `Editor` | `ensure_cols`, the editor's column order, adding rows, saving edits |
| `session.dfy` | `Session` | `check_login` and the settings defaults |

The model follows the code's form:

- The loops become methods proved against specification functions:
  - the valuation loops;
  - the estimator's group loop and its keyword scan;
  - the projection's yearly loop and its loop over the tiers;
  - the import row loop;
  - the price refresh, which updates an `array` in place;
  - the login search;
  - `ensure_cols`.
- The history sheet and the editor's session rows are classes whose methods change their `seq` fields.
- The comprehensions, filters, group-by and look-ups are functions, with lemmas stating what they mean.

Money is a mathematical `real`, and strings are `seq<char>`.

## Model

| member | source | states |
|---|---|---|
| `Text.StripShape` | app.py:397 | `strip()` cuts only whitespace, from both ends, and leaves a result that neither starts nor ends with whitespace |
| `Text.StripIdempotent` | app.py:244 | stripping twice is stripping once |
| `Text.StripSeparators` | app.py:266 | `strip()` removes each of the ASCII separators U+001C to U+001F, and Unicode spaces such as U+3000 and U+00A0 |
| `Text.ToUpper` | app.py:244 | on strings whose letters are ASCII, `upper()` keeps the length and upper-cases each letter in place |
| `Text.ToLower` | app.py:266 | on strings whose letters are ASCII, `lower()` keeps the length and lower-cases each letter in place |
| `Text.ContainsAt` | app.py:335 | `k in s` holds exactly when `k` occurs in `s` at some position |
| `Valuation.EmitHoldings` | app.py:393-410 | a holdings sheet contributes at most one row per sheet row, and only rows with a usable key and a positive value |
| `Valuation.EmitFixed` | app.py:413-417 | the fixed-asset sheet contributes at most one row per sheet row, and only rows with a usable name and a positive value |
| `Valuation.ValueHoldingRows` | app.py:393-400 | the holdings loop, with the custom price if positive, otherwise the market price, times shares times the rate, builds exactly the emitted table |
| `Valuation.ValueFixedRows` | app.py:413-417 | the fixed-asset loop builds exactly the emitted table |
| `Valuation.Valuate` | app.py:391-429 | the asset table is the US rows (x 32.5), then the TW rows, then the fixed assets, and every row is clean; total assets is their sum; liabilities and monthly burn are the column sums; net worth = total assets - total liabilities |
| `Valuation.EmitHoldingsFrom` | app.py:393-410 | an asset row is emitted from a holdings sheet if and only if some sheet row is shown and values to it: stripped code, category kept, effective price x shares x rate |
| `Valuation.EmitFixedFrom` | app.py:413-417 | an asset row is emitted from the fixed-asset sheet if and only if some sheet row is shown with that stripped name and value |
| `Valuation.TotalAssetsSplit` | app.py:419-424 | total assets is the sum of the three sheets' parts, is never negative, and is positive exactly when some row is emitted |
| `Valuation.UsValueIsConverted` | app.py:394-406 | a US holding is worth 32.5 times the same holding valued at rate 1, which is effective price x shares |
| `ReturnEstimator.RateForFirstMatch` | app.py:332-335 | a category's rate is that of the first keyword in the map's order that it contains, and 3.0 when it contains none |
| `ReturnEstimator.RateFromBounds` | app.py:322 | every rate the lookup can give lies in [1, 25] |
| `ReturnEstimator.ConsideredMembers` | app.py:325-326 | a row is weighed exactly when it is in the table and, in the exclude mode, its category contains none of 房產, 固定, 地產 |
| `ReturnEstimator.GroupByFacts` | app.py:331 | the group-by gives each category of the rows exactly once, in ascending order, and preserves the total value and the rate-weighted total |
| `ReturnEstimator.SortedGroupsDistinct` | app.py:331 | no category appears in two groups |
| `ReturnEstimator.AddToGroupsSorted` | app.py:331 | adding a row to sorted groups keeps them sorted |
| `ReturnEstimator.GroupByFold` | app.py:331 | any additive per-category weighting summed over the groups equals the same weighting summed over the rows |
| `ReturnEstimator.SortedCons` | app.py:331 | a group in front of sorted groups keeps them sorted exactly when its category comes before all of theirs |
| `ReturnEstimator.LookupRate` | app.py:333-335 | the keyword scan with its early exit returns the rate of the first matching keyword, or 3.0 |
| `ReturnEstimator.WeighGroups` | app.py:332-338 | the loop accumulates Σ rate x (group value / total) and writes one line per group with its category, its weight and its rate |
| `ReturnEstimator.PredictReturn` | app.py:320-339 | returns (5.0, 無資產) for an empty table and (5.0, 無有效資產可計算) for a zero filtered total; otherwise the weighted return, with the mode and one line per category group |
| `ReturnEstimator.ExpectedReturnIsRowAverage` | app.py:327-337 | the estimate is Σ rate x value / Σ value over the weighed rows, so grouping by category changes nothing |
| `ReturnEstimator.ExpectedReturnOrderFree` | app.py:320-339 | the estimate does not depend on the order of the asset rows |
| `ReturnEstimator.PropertyNeverWeighed` | app.py:325-326 | in the exclude mode no weighed row is property-like, and adding a property-like row never moves the estimate |
| `ReturnEstimator.ExpectedReturnBounds` | app.py:320-339 | with positive values the estimate lies in [1, 25], including the 5.0 fallback |
| `ReturnEstimator.EstimateOfValuation` | app.py:391-429 | on any asset table the valuation derives, the estimate lies in [1, 25] |
| `Projection.FireCurves` | app.py:299-318 | the ages are current age..65; the wealth curve, the curve of every tier and the custom target curve are the year-by-year running values, one point per step plus the start |
| `Projection.ProjectYears` | app.py:303-317 | the yearly loop, from any starting targets, builds the wealth curve of running capital plus real estate and, for each tier and for the custom target, the curve of the running target inflated year by year |
| `Projection.InflateTiers` | app.py:313-315 | the loop over the tiers multiplies every tier's running target by (1 + inflation/100) and appends the result to that tier's curve, whatever order it visits them in |
| `Projection.TiersAdvance` | app.py:313-315 | one pass of the tier loop takes every tier's running target and curve from i to i + 1 years of inflation |
| `Projection.ProjectionShape` | app.py:300-309 | at 65 or younger, ages and every curve have the same length, from the current age to 65; past 65 there are no ages but every curve still has one point |
| `Projection.CurvePoints` | app.py:303-317 | point k of the wealth curve is capital plus real estate after k years, and point k of a target curve is the target after k years of inflation; the first points are investable + house and the ×25 targets |
| `Projection.InflatedClosedForm` | app.py:314-316 | after k years a target is the starting target x (1 + inflation/100)^k |
| `Projection.TargetCurveNonDecreasing` | app.py:313-317 | with inflation ≥ 0 every target curve with a non-negative spending is non-decreasing |
| `Projection.HouseFlat` | app.py:311 | real estate keeps its starting value when growth is off or that value is not positive |
| `Projection.HouseCompounds` | app.py:311 | with growth on and above -100%, positive real estate after k years is its value x (1 + growth/100)^k, and stays positive |
| `Projection.InvestGrows` | app.py:310 | with non-negative capital, savings and return, capital never shrinks from one year to the next |
| `Projection.HouseSplitAsWrittenModes` | app.py:612-617 | as written, the starting capital is net worth minus the 房產/固定 rows in both modes, and real estate is that sum only when it is included |
| `Projection.HouseSplitAsWrittenMisses` | app.py:613-614 | a 房地產 row is property to the estimator but investable capital to the split as written |
| `Projection.HouseSplitMatchesEstimate` | app.py:612-620 | with the estimator's real-estate test, the starting capital is the asset base the exclude-mode estimate weighs, minus liabilities; capital plus real estate is the net worth when real estate is included |
| `Projection.PlanInputs` | app.py:612-621 | the FIRE tab's call as written: capital is net worth minus the 房產/固定 rows, real estate is that sum when included and 0 otherwise (both 0 without asset rows); age, savings, return and spending pass through; 3% growth and 3% inflation; real estate grows only when included |
| `Projection.PlanInputsCorrected` | app.py:612-621 | the same call with the estimator's real-estate test: capital is the base the exclude-mode estimate weighs, less liabilities; capital plus real estate is the net worth when real estate is included, real estate 0 otherwise; both 0 without asset rows; the other arguments as in the call |
| `FileImport.NormalizeHeaders` | app.py:266 | every header is lower-cased and stripped, and the header order is kept |
| `FileImport.NormalizedHeaderForm` | app.py:266 | a normalised header has no ASCII capital and no whitespace at either end |
| `FileImport.FindColumn` | app.py:269-271 | the chosen column is the first header in file order that is one of the aliases; there is none only when no header is an alias |
| `FileImport.ConvertAllMeaning` | app.py:275-295 | a converted import has one output row per input row, each the conversion of its own row; a failed one reports the first row that fails |
| `FileImport.ConvertRows` | app.py:275-295 | the row loop appends each converted row and stops at the first cell that cannot be read, giving exactly the specified conversion |
| `FileImport.ParseFile` | app.py:266-297 | the normaliser gives the specified result: column resolution, then the row conversion for the import kind |
| `FileImport.MissingColumnsRefused` | app.py:272-292 | an import fails with 缺少 [代號] 或 [股數], 缺少 [資產項目] 或 [現值] or 缺少 [負債項目] 或 [金額] exactly when one of its mandatory columns has no alias among the headers |
| `FileImport.RowsFailOnlyOnNumbers` | app.py:297 | once the columns are found, the only failure left is a cell that is not a number |
| `FileImport.StockImportRows` | app.py:268-281 | a stock import gives one holding per input row: the ticker stripped and upper-cased, a blank name, the shares cell read with unreadable as 0, 美股 or 台股, market price 0, and the price cell's number as custom price (0 without a price column); once ticker and shares columns exist it succeeds exactly when there is no price column or every price cell is a number |
| `FileImport.StockRowsConverted` | app.py:273-281 | the stock row conversion keeps one holding per row, each from its own row's ticker, shares and price cells; it fails exactly when a price column exists and some price cell is not a number, and then reports the first such cell |
| `FileImport.OtherImportDefaults` | app.py:282-295 | a fixed-asset import keeps each row's item, reads its value cell and files it under 固定資產; a liability import keeps the item, reads the amount and the monthly cell, and records 0 per month without a monthly column |
| `PriceRefresh.RefreshRow` | app.py:243-254 | code, shares and custom price are kept; rows with a blank, NAN or NONE ticker are untouched; the market price changes only to a positive fetched price; name and category are filled only where blank |
| `PriceRefresh.UpdatePortfolio` | app.py:242-256 | every row of the sheet is refreshed in place: afterwards row i is the refresh of what row i was |
| `PriceRefresh.RefreshHolding` | app.py:244-254 | the loop body for one row gives exactly the refreshed row: untouched for a blank, NAN or NONE ticker, otherwise the positive fetched price, a fetched name for an unnamed row and the default category for an uncategorised one |
| `PriceRefresh.RefreshKeeps` | app.py:248-254 | a refreshed row keeps a name or category it had, and its market price moves only to a positive fetched price |
| `PriceRefresh.RefreshIdempotent` | app.py:243-254 | refreshing twice with the same answers is refreshing once |
| `History.AppendDaily` | app.py:214-219 | the history is kept unchanged exactly when it was readable and already has today's date; otherwise today's row is appended |
| `History.HistorySheet.SaveDailyRecord` | app.py:208-219 | the sheet's rows after saving are the specified append |
| `History.SaveTwiceSameDay` | app.py:217-219 | a second save on the same day changes nothing, whatever its figures |
| `History.AppendKeepsDatesUnique` | app.py:217-219 | while the sheet stays readable, no two rows share a date |
| `History.AppendKeepsPast` | app.py:219 | earlier rows are never changed or dropped, at most one row is added, that row is today's point, and afterwards today is recorded |
| `Editor.EnsureCols` | app.py:379-384 | the loop gives exactly the specified frame |
| `Editor.AddColumnsFacts` | app.py:381-383 | adding columns keeps the existing columns in front with their values, gives every wanted column, adds no other column, and fills new ones with 0 (amount columns) or "" |
| `Editor.EnsureColsFacts` | app.py:379-384 | afterwards every wanted column exists; an empty sheet becomes exactly the wanted columns and no rows; otherwise the row count is kept |
| `Editor.Among` | app.py:511 | keeps exactly the preferred entries the sheet has |
| `Editor.NotAmong` | app.py:512 | keeps exactly the sheet's columns not already placed |
| `Editor.AmongInOrder` | app.py:511-512 | both filters keep the order of the list they filter: the preferred columns stay in preferred order, the others in sheet order |
| `Editor.DisplayOrderIsPermutation` | app.py:510-513 | the display order shows every (distinct) column exactly once, the preferred ones first in preferred order |
| `Editor.NewRow` | app.py:557-561 | the new row has exactly the sheet's columns, all blank, except 類別, which is 美股, 台股 or 固定 by sheet key |
| `Editor.SavedRows` | app.py:577-578 | each stored row keeps only its non-derived columns |
| `Editor.UnmarkedMembers` | app.py:576 | a row survives deletion exactly when it was not ticked |
| `Editor.CommitMeaning` | app.py:575-583 | with or without ticks, the stored rows are the unticked rows in order, none with a derived column, and every unticked row is stored |
| `Editor.SheetEditor.AddRows` | app.py:563-571 | the session rows gain `count` copies of the new row at the end |
| `Editor.SheetEditor.CommitEdits` | app.py:575-583 | the session rows become the committed rows |
| `Session.CheckLogin` | app.py:94-98 | the target sheet of the first row whose stripped username and password match; None exactly when no row matches |
| `Session.Truncate` | app.py:151 | `int()` truncates toward zero |
| `Session.LookupLast` | app.py:149 | a key's value is that of the last row with that key, and there is none when no row has it |
| `Session.SettingsDefaults` | app.py:148-153 | a missing key gives its default: 850000, 27, 325000, 11.0 |
| `Session.SettingsRoundTrip` | app.py:197-201 | the four settings the app saves read back as the same settings |

## Left out

- Streamlit UI, CSS, charts, privacy masking and the session plumbing: presentation only.
- Google Sheets authentication and I/O, and the sheet reads and writes of the load and save routines: network. The user table, the settings rows and the History rows are parameters. A History read failure is the `readable` flag.
- `write_ws` (the sheet writer): not modelled. Its 代號 filter calls `.lower()` on a pandas Series, which raises after the sheet was cleared. That path is not modelled as a working filter.
- yfinance (`get_precise_price`, the `shortName` lookup): foreign calls, modelled as the oracles `price` and `shortName`.
- File reading and the utf-8/cp950 fallback, and the unsupported-format reply 格式不支援: I/O before the normaliser.
- Import: only the four import kinds the page offers are modelled. Numbers in cells are read by the `parse` parameter, standing for pandas' conversion. Python exception texts are `NotANumber(cell)`. Empty (NaN) cells and duplicate normalised headers are not modelled.
- Sheet cells are modelled as already-typed values. The `or 0` guards and `to_numeric(..., errors='coerce')` on sheet columns, NaN categories (`na=False`) and pandas' dropping of NaN group keys are not modelled. `int(settings["age"])` is modelled on numbers only.
- Floating-point arithmetic: money is an exact `real`.
- `ReturnEstimator.PredictReturn`: returns the unrounded weighted return, not `round(…, 2)`. Its explanation keeps the mode flag and each line's category, weight and rate, not the formatted Markdown text.
- `Text.ToUpper`, `Text.ToLower`: only ASCII letters change case. Python also maps the rest of Unicode.
- `ReturnEstimator.GroupByFacts`: the category order is the code-point order of the strings, which is Python's. pandas' collation of unusual keys is not modelled.
- `PriceRefresh.UpdatePortfolio`: the coercion of the 股數 column and the early return for an empty table are not modelled. Holdings already carry numbers, and an empty array is left unchanged by the loop.
- `Editor.DisplayOrderIsPermutation`: reordering moves whole columns. Rows are keyed by column name, so their cells need no reordering.
- `Editor.SheetEditor.AddRows`: the 1-20 bound on the row count comes from the input widget and is not modelled.
- `Session.CheckLogin`: a failed connection or a lookup error (`return None`) is left to the caller. Missing user fields (`str(None)`) are not modelled.

## Findings

| source | as written | input that shows it | evidently intended | confidence | as-written member | corrected member |
|---|---|---|---|---|---|---|
| app.py:613-614 | The FIRE tab separates real estate by the pattern `房產\|固定`. The return estimator's exclude mode (app.py:326) uses `房產\|固定\|地產`. | One asset row, category 房地產, value 100, no liabilities, real estate excluded. The estimator leaves the row out, but the projection counts its 100 as investable capital and compounds it at the estimated rate. | The projection uses the same real-estate test as the estimator. Then the compounded capital is exactly the base the rate was estimated over. | medium, not executed | `Projection.HouseSplitAsWrittenMisses` | `Projection.PlanInputsCorrected` |
