# Sales dashboard core, modelled in Dafny

The dashboard loads a table of orders and checks it for the required columns. It
cleans the Sales, Profit and Quantity columns and filters the rows by order-date
range, region and category. `analyze_data` then computes totals, the profit margin,
monthly sales, best and worst product groups, per-region figures, contribution
shares and anomalous months. A chat panel keeps a history of questions and answers
and shows the last eight.

The model works on rows that are already parsed:
- Sales, Profit and Quantity are `real`, and a null cell is `None`.
- An order date is a calendar day (year, month, day).
- Categorical cells are strings.

Modules:
- `Seqs`: the sequence helpers. Order-preserving selection, prefixes and suffixes
  in Python's slice sense (suffixes for a positive length), and mapping.
- `Records`: the row types, the column names, and the orders used for group keys.
  Months are ordered by year, then month. Strings are ordered lexicographically by
  code point.
- `Grouping`: a generic group-by-sum whose groups come out in ascending key order,
  as pandas `groupby` sorts them. Also the ranking of groups by total, and
  `head(n)`.
- `Loader`: the required-column check and the cleaning.
  - `Frame` is the DataFrame object that the load path updates column by column.
  - The pure column functions specify its methods.
  - `CleanRows` is an independent row-by-row reference definition of the cleaning.
- `FilterEngine`: the dashboard filter.
- `Analysis`: `analyze_data`.
- `SessionState`: the session, with the uploaded frame, the cleaned table and the
  chat history.
  - The text-generation service is a parameter of `Ask`: a reply, or `None` when
    the call fails.
  - A file that could not be read is a null frame passed to `Upload`.

## Model

| member | source | states |
|---|---|---|
| Loader.MissingFrom | app.py:115 | the result holds, in the order of the required list, exactly the required columns the table lacks |
| Loader.MissingColumns | app.py:114-117 | the missing list is empty iff every one of the six required columns is present |
| Loader.MissingSegmentOnly | app.py:114-117 | a table lacking only Segment is refused with exactly `['Segment']` |
| Loader.RoundHalfEven | app.py:123 | the result is within 1/2 of the input, and an exact tie goes to the even integer |
| Loader.QuantityDivisor | app.py:123 | a zero Profit is replaced by 1, so the Quantity division never divides by zero |
| Loader.ZeroProfitQuantity | app.py:123 | Sales 100 with Profit 0 derives Quantity 100 |
| Loader.CleanedRecord | app.py:120-123 | a cleaned row's Sales is the original when non-negative and exactly 0 when negative. Its Profit is the original, or 0 when null. When derived, its Quantity is Sales / (Profit, or 1 when Profit is 0), rounded half to even to a whole number; otherwise it is unchanged. Every other field is unchanged |
| Loader.NormalizeIsRowwise | app.py:119-124 | the column-by-column cleaning equals the row-by-row reference. Rows without Sales are dropped and a null Profit never drops a row. Quantity is derived, and the column added, exactly when the file had no Quantity column |
| Loader.CleanRowsKeepSales | app.py:121-124 | the clean table has exactly as many rows as the input has Sales values, and every surviving Sales is non-negative |
| Loader.NoNullSalesNoDrop | app.py:124 | a table with no null Sales loses no rows |
| Loader.Frame.FillProfitNulls | app.py:120 | the frame's rows become the Profit-filled rows, and afterwards no Profit is null |
| Loader.Frame.ClipSales | app.py:121 | the frame's rows become the clipped rows, and afterwards every present Sales is non-negative |
| Loader.Frame.AssignDerivedQuantity | app.py:122-123 | the rows get derived Quantities, and the Quantity column is appended if absent |
| Loader.DropNullRows | app.py:124 | the result is, in order, exactly the rows with both Sales and Profit present, each as its record |
| Loader.Frame.DropNulls | app.py:124 | a new table with the frame's columns whose rows are, in order, exactly the frame's rows with both Sales and Profit present |
| FilterEngine.FilterView | app.py:143-154 | the view is an order-preserving subsequence of the table. A row is kept, with its multiplicity, iff start <= date <= end, its region is selected and its category is selected |
| FilterEngine.FilterKeepingAll | app.py:143-154 | a filter that keeps every row returns the table unchanged, as the default full-range, all-selected filter does |
| FilterEngine.FilterIdempotent | app.py:143-154 | filtering a filtered view again with the same parameters changes nothing |
| FilterEngine.EmptySelectionEmptyView | app.py:151-154 | an empty region or category selection gives an empty view |
| Analysis.ProfitMargin | app.py:161 | with positive total sales the margin times sales is 100 times profit; otherwise the margin is 0 |
| Analysis.MonthlySalesSpec | app.py:163-166 | there is one entry per distinct month of the view, strictly ascending by month. Each entry is that month's Sales sum, and the entries add up to the total sales |
| Analysis.GroupColumn | app.py:168 | Sub-Category is chosen iff the view has that column; Category otherwise |
| Analysis.TopProducts | app.py:169 | at most 10 groups, a sub-multiset of all groups, non-increasing by sum, and no group left out sells more than one included |
| Analysis.TopDeclines | app.py:170 | at most 3 groups, a sub-multiset of all groups, non-decreasing by sum, and no group left out sells less than one included |
| Analysis.RegionPerformanceSpec | app.py:175 | one row per region of the view, regions ascending, each with that region's Sales sum and Profit sum |
| Analysis.ContributionsSumTo100 | app.py:176-177 | with non-zero total sales the category shares add up to 100, and so do the region shares. With zero total sales every share is undefined |
| Analysis.AbsVersusSquare | app.py:181 | abs(x) > 2 sigma iff x squared > 4 sigma squared, so the test is stated without a square root |
| Analysis.Anomalies | app.py:179-182 | a month is reported iff its squared deviation from the mean exceeds 4 times the sample variance. The result is None rather than empty when no month qualifies, and always None for fewer than two months |
| Analysis.AnomalyCountBound | app.py:179-182 | fewer than (n - 1) / 4 of n months can be reported |
| Analysis.FewMonthsNoAnomaly | app.py:179-182 | five months or fewer never report an anomaly |
| Analysis.SixMonthOutlier | app.py:179-182 | five months of 0 and one of 6 report exactly the outlier month |
| Analysis.AnalyzeData | app.py:157-184 | the result holds the totals, the guarded margin and a chronological monthly series covering the view's months and adding up to total sales. Each remaining field is the specified function above on the view: grouping column, top 10, bottom 3, region rows, both share lists, and anomalies. So the top and bottom lists have length min(10, groups) and min(3, groups), shares add up to 100 when total sales is non-zero, and a month is reported iff it is anomalous, within the count bound |
| Analysis.EmptyViewDefaults | app.py:157-184 | an empty view gives zero totals, a zero margin, empty series and groups, and no anomalies |
| Analysis.AnalyzeDataPermutation | app.py:157-184 | views with the same columns and the same rows in any order give the same analysis |
| Grouping.GroupSumSpec | app.py:164 | group-by-sum gives strictly ascending keys, exactly the keys occurring in the rows, and each key's sum. The group totals add up to the overall sum |
| Grouping.GroupSumPermutation | app.py:164 | group-by-sum depends only on the multiset of rows |
| Grouping.SortByTotal | app.py:169-170 | the sort returns a permutation of the groups ordered by total |
| Grouping.TopByTotal | app.py:169-170 | `sort_values().head(n)` returns min(n, count) groups, sorted, and no omitted group ranks before an included one |
| SessionState.Session.Upload | app.py:112-126 | a readable file is stored as `df` before validation. If a required column is missing, the missing list is reported and `df_clean` is kept. Otherwise `df` is cleaned in place and `df_clean` is the cleaned table with its row count reported |
| SessionState.Session.EnsureChatHistory | app.py:291-292 | an absent history becomes empty; an existing history is kept |
| SessionState.Session.Ask | app.py:302-325 | a non-empty query with a reply appends exactly one turn (query, reply, snippet). An empty query or a failed call leaves the history unchanged |
| SessionState.ContextSnippet | app.py:321 | the snippet is the first min(600, n) characters of the context followed by "..." |
| SessionState.Session.DisplayedHistory | app.py:329 | the display is the last min(8, n) turns, in their original order |
| SessionState.DisplayAfterAppend | app.py:318-329 | after an append, the display is the previous last seven turns followed by the new turn |

## Left out

- The Streamlit page is not modelled: styling, widgets, KPI cards, charts and messages.
  The success message's first and last dates are also left out.
- Decoding and parsing the uploaded file are not modelled: UTF-8 with a latin-1
  fallback, CSV and Excel reading, and `to_datetime`. The model starts from parsed
  rows with calendar-day dates, so times of day and the midnight end bound of the
  date filter are not modelled.
- The generative-text service and its configuration are not modelled. A reply is a
  parameter of `Ask`, and so is the context string; the prompt and summary text are
  not built.
- `st.cache_data` memoisation is not modelled. It does not change results.
- Floating point is modelled by exact `real` arithmetic.
  - NaN and infinity are not modelled.
  - A share computed against zero total sales is `None`.
  - A standard deviation over fewer than two months makes no month anomalous.
- Null Category, Region or Sub-Category cells are not modelled; pandas' `groupby`
  would drop those rows.
- Null Profit cells are only filled, never dropped, as in the source.
- Analysis.TopProducts, Analysis.TopDeclines: the order among groups with equal
  sums is not stated. pandas' default sort does not fix it, and the model's stable
  insertion sort is one valid choice.
- Analysis.AnalyzeData: does not model the `Month` column that `analyze_data` adds
  to the view it receives. Nothing in the modelled core reads that column.
- The monthly series keeps months as (year, month) values; their "YYYY-MM" text
  form is not built.
- SessionState.Session.Ask: the Send button and the query are folded into the
  call. Asking without a press is not a call.

## Observations

No defect was established.
- The anomaly test uses the sample standard deviation. With it, no month can
  exceed two deviations unless the series has at least six months
  (`Analysis.FewMonthsNoAnomaly`).
- The contribution shares, unlike the margin, are not guarded against zero total
  sales.

Both follow from the code as written and are kept in the model.
