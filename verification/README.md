# OLIST dashboard aggregations, modelled in Dafny

This project models the data side of the two streamlit dashboards of the
OLIST e-commerce analysis: `dashboard/dashboard.py` (the app dashboard) and
`dashboard.py` (the root dashboard). Both scripts do the same things:

- They restrict the orders and product-line extracts to a date window
  picked in the sidebar. The app dashboard also restricts the order-line
  extract that feeds its RFM table.
- They build the tables behind each chart:
  - the number of distinct delivered orders per purchase month;
  - the five best and five worst product categories;
  - the number of orders per purchase hour;
  - the ten categories with the most revenue;
  - the top five customers by recency, by frequency and by monetary value.
- The app dashboard builds its RFM (recency, frequency, monetary) table
  from the window by a group-by and two in-place column edits. The root
  dashboard reads a precomputed `rfm_df` that the window does not touch.

The model is built as follows:

- Records are datatypes and tables are sequences of them.
- The two columns whose cells the group-bys may find missing, the product
  category and the purchase hour, hold an `Option`. Group-bys and
  `value_counts` drop rows whose key is missing, as pandas does. Every other
  column is taken to be present in every row (see "Left out").
- Timestamps are whole seconds since 1970-01-01 and calendar dates are day
  numbers. Prices are whole cents.
- `sort_values` is not assumed stable: pandas' default quicksort is not.
  A sorted table is therefore any permutation of its input ordered by the
  key (`Ranking.IsSortValues`). `head(n)` of one is `Ranking.IsSortedHead`.
- The `Render` functions compute one such result, using insertion sort
  (`Ranking.SortBy`) to break ties. Each is proved to be an admissible
  result of its script (`IsView`).

The in-place edits of the RFM frame are a class. `Rfm.RfmFrame` holds one
`seq` per column. Its constructor is the group-by with the column rename;
its methods add the `recency` column and drop `max_order_timestamp` in
place. `Rfm.PrepareRfm` runs lines 173-185 in order and is proved to
produce `Rfm.RfmTable`, the pure specification of the table. Everything
else is pure functions and lemmas.

The date window follows the code. The timestamp column holds parsed
datetimes, so comparing it with `str(start_date)` and `str(end_date)`
compares datetimes against midnight of those days. It is not a comparison
of strings. The window is therefore [start 00:00, end 00:00], both ends
included, and purchases made later on the end day are dropped
(`DateFilter.WindowByDay`).

`dt.to_period('M')` is modelled by the proleptic Gregorian calendar, computed
by splitting a day count into 400-year eras, centuries, four-year cycles and
years (`Calendar.CivilFromDays`). Dates are proved to be well formed and to
advance one day at a time (`Calendar.CivilStep`), so month periods follow
time order (`Calendar.MonthOfMonotone`).

Recency is proved to be at least one day, which is stronger than "not
negative": the reference instant is one whole day past the window's latest
purchase.

## Model

| member | source | states |
|---|---|---|
| Frames.Filter | dashboard/dashboard.py:44-51 | A boolean-mask selection holds exactly the input rows that pass the mask and is never longer than the input |
| Frames.FilterMultiset | dashboard/dashboard.py:44-51 | A selected row appears exactly as often as in the input when it passes the mask, and not at all otherwise |
| Frames.FilterConcat | dashboard/dashboard.py:44-51 | Selection keeps row order: selecting from a concatenation concatenates the selections |
| Frames.FilterTwice | dashboard/dashboard.py:44-51 | Selecting with a wide mask and then a narrower one is selecting with the narrower one |
| Frames.FilterCommute | dashboard/dashboard.py:64 | The status filter and the date filter can be applied in either order |
| Frames.SumPermutation | dashboard/dashboard.py:178 | A column sum does not depend on the order of the rows |
| Frames.SumFilterAtMost | dashboard/dashboard.py:178 | With non-negative prices, dropping rows never raises a sum |
| Frames.MaxOfSpec | dashboard/dashboard.py:173 | `max()` of a non-empty column is one of its values and no cell exceeds it |
| Frames.MaxOfSameRows | dashboard/dashboard.py:176 | `max()` depends only on which rows are present |
| Frames.ValuesSpec | dashboard/dashboard.py:177 | The distinct values of a column are exactly the values some row has; there are at most as many as rows, and at least one for a non-empty column |
| Frames.ValuesSameRows | dashboard/dashboard.py:177 | `nunique()` depends only on which rows are present |
| Frames.ValuesOfFilter | dashboard/dashboard.py:177 | The distinct values of a selection are among the column's values, so there are no more of them |
| Ranking.SortBy | dashboard.py:97 | Insertion sort returns a permutation of its input ordered by the key: one admissible `sort_values` |
| Ranking.HeadOfSorted | dashboard/dashboard.py:108 | `head(n)` of a sorted table is sorted, and each of its rows comes no later in key order than every row left out |
| Ranking.TailOfSorted | dashboard/dashboard.py:109 | `tail(n)` of a sorted table is sorted, and each of its rows comes no earlier in key order than every row left out |
| Ranking.SortedHeadSpec | dashboard/dashboard.py:207 | Whatever the tie-break, `sort_values(...).head(n)` has min(n, len) rows, is drawn from the table, is in key order and ranks no row behind one it leaves out |
| Ranking.SortedHeadFirst | dashboard/dashboard.py:207 | The first row of a sorted head carries the table's extreme key |
| Ranking.SortedHeadExists | dashboard.py:123 | Insertion sort followed by `head(n)` is an admissible sorted head |
| Ranking.HeadTailOverlap | dashboard/dashboard.py:108-109 | `head(n)` and `tail(n)` share a row when the table has between 1 and 2n-1 rows, and are disjoint slices from 2n rows on |
| Ranking.HeadTailPanels | dashboard/dashboard.py:106-109 | Best/worst panels each have min(n, len) rows drawn from the table and dominate the rows they leave out in opposite directions; they overlap below 2n rows and are disjoint from 2n rows on |
| Ranking.DistinctPermutation | dashboard.py:110 | Re-ordering a table with distinct keys keeps its keys distinct |
| GroupBy.Select | dashboard/dashboard.py:175 | The group of key k holds exactly the rows whose key is k |
| GroupBy.NonNull | dashboard/dashboard.py:106 | The rows that take part in a group-by are exactly those whose key is present |
| GroupBy.SelectMultiset | dashboard/dashboard.py:175 | A group holds each row of its key as often as the input does |
| GroupBy.SelectCount | dashboard/dashboard.py:106 | A group has as many rows as the key column has cells holding its key |
| GroupBy.SelectOfFilter | dashboard/dashboard.py:175 | Grouping after a selection is selecting within each group |
| GroupBy.NonNullAll | dashboard/dashboard.py:175 | When no key cell is missing, the group-by drops no row |
| GroupBy.Keys | dashboard/dashboard.py:175 | The group keys are distinct and are exactly the keys present in the rows |
| GroupBy.GroupAgg | dashboard/dashboard.py:151 | `groupby(key).agg(f)` has one entry per present key, no key twice, and each entry holds f of that key's group |
| GroupBy.CountPanels | dashboard/dashboard.py:106-109 | The two product panels, stated on entry values: min(5, categories) rows each, best descending and worst ascending, best dominate the rest by value, worst are dominated, overlap below ten categories, disjoint from ten on |
| GroupBy.SumOfGroups | dashboard/dashboard.py:151-152 | A summing group-by loses nothing: the group sums add up to the sum over every row whose key is present |
| Calendar.DayOf | dashboard/dashboard.py:44-45 | An instant lies between midnight of its day and midnight of the next day |
| Calendar.WholeDays | dashboard/dashboard.py:184 | `Timedelta.days` rounds down to whole days, so d days of 86400 s fit into the duration and d+1 do not |
| Calendar.CivilRange | dashboard/dashboard.py:71 | Every day count has a civil date with month 1..12 and day 1..31 |
| Calendar.CivilStep | dashboard/dashboard.py:71 | The day after a date is the next day of its month, or the 1st of the next month, or 1 January of the next year after December |
| Calendar.MonthIndexStep | dashboard/dashboard.py:71 | The period ordinal of the next day is the same or one more |
| Calendar.MonthOfMonotone | dashboard/dashboard.py:71 | A later instant never falls in an earlier month period, so period order is time order |
| Calendar.NewYear2018 | dashboard/dashboard.py:71 | Day 17532 is 2018-01-01, and an instant on it falls in period 576 (January 2018) |
| Calendar.FirstOfMarch2018 | dashboard/dashboard.py:71 | Day 17591 is 2018-03-01: the civil calendar skips 29 February in a common year |
| DateFilter.FilterByDate | dashboard/dashboard.py:44-51 | The window keeps exactly the rows whose purchase instant lies between start 00:00 and end 00:00 |
| DateFilter.FilterByDateSpec | dashboard/dashboard.py:44-51 | The window keeps each in-window row with its multiplicity, drops the others, and preserves row order |
| DateFilter.WindowByDay | dashboard.py:40-44 | In days, an instant is kept iff its day is in [start, end) or it is exactly midnight opening `end` |
| DateFilter.NarrowedWindow | dashboard/dashboard.py:44-51 | Filtering by a window and then by a window inside it is filtering by the inner window |
| Rfm.RfmFrame.GroupByCustomer | dashboard/dashboard.py:175-181 | The grouped frame has one row per customer of the window, holding the latest purchase, the distinct orders and the price total |
| Rfm.RfmFrame.AddRecency | dashboard/dashboard.py:184 | Adds the `recency` column as whole days from `rfm_date` back to each latest purchase; changes no other column |
| Rfm.RfmFrame.DropMaxOrderTimestamp | dashboard/dashboard.py:185 | Drops `max_order_timestamp` in place; changes no other column |
| Rfm.PrepareRfm | dashboard/dashboard.py:173-185 | The reference instant, the group-by, the added column and the dropped column leave exactly the RFM table |
| Rfm.CustomersExact | dashboard/dashboard.py:175 | A customer has a group iff some row of the window is theirs |
| Rfm.RfmCustomersExact | dashboard/dashboard.py:175-181 | The RFM table has exactly one row per customer of the window: none dropped, none invented, none twice |
| Rfm.FrequencyBounds | dashboard/dashboard.py:177 | A customer's frequency is at least one and at most their number of line items |
| Rfm.MonetaryConserved | dashboard/dashboard.py:178 | The monetary column adds up to the total price of the window's rows |
| Rfm.RecencySpec | dashboard/dashboard.py:173-184 | Recency is at least one day; it is exactly one iff the customer's latest purchase is within a day of the window's latest, which holds for whoever made it |
| Rfm.LatestWithinWindow | dashboard/dashboard.py:176 | A customer's latest purchase is no later than the window's latest |
| Rfm.LatestOwner | dashboard/dashboard.py:173 | Some customer of a non-empty window owns its latest purchase |
| Rfm.PurchasesPermutation | dashboard/dashboard.py:175 | Re-ordering the rows re-orders each customer's line items |
| Rfm.AggregatesPermutation | dashboard/dashboard.py:176-178 | Frequency, monetary and latest purchase do not depend on the order of the rows |
| Rfm.RecencyPermutation | dashboard/dashboard.py:184 | Recency does not depend on the order of the rows |
| Rfm.RfmPermutationInvariant | dashboard/dashboard.py:175-184 | A customer's whole RFM row does not depend on the order of the rows |
| Rfm.FrequencyCountsOrders | dashboard/dashboard.py:177 | A customer's frequency is the number of distinct order ids among their rows |
| Rfm.TwoOrdersThreeLines | dashboard/dashboard.py:177-178 | Three line items over two orders give frequency two, while monetary adds all three prices |
| Rfm.NarrowingKeepsFrequency | dashboard/dashboard.py:175-177 | Narrowing the date window never raises a customer's frequency, whatever the prices |
| Rfm.NarrowingKeepsMonetary | dashboard/dashboard.py:175-178 | With non-negative prices, narrowing the date window never raises a customer's monetary value |
| Rfm.ShortId | dashboard/dashboard.py:204 | `str[-8:]` is the last min(8, len) characters of the id: a suffix of it |
| Rfm.ShortIdIdempotent | dashboard/dashboard.py:204 | Ids of at most eight characters are kept whole, so shortening twice is shortening once |
| Rfm.WithShortIds | dashboard/dashboard.py:203-204 | The plot table keeps every RFM row unchanged and in place; each row's short id has min(8, len) characters and completes the full id as its suffix |
| Rfm.RecencyAtLeastOne | dashboard/dashboard.py:184 | Every row of the RFM table has recency at least one |
| Rfm.RecencyOneListed | dashboard/dashboard.py:173-184 | A non-empty window's table has a row of recency one |
| Rfm.TopRecencyStartsAtOne | dashboard/dashboard.py:207 | Over a non-empty window the recency panel shows min(5, customers) rows, at least one, and its first row has recency one |
| Rfm.RecencyPanelFirst | dashboard/dashboard.py:207 | Over a table whose least recency is one, the ascending recency panel starts at one |
| Rfm.WorkedExample | dashboard/dashboard.py:173-185 | For a three-row window the reference instant is 2018-01-11 00:00 and the table is C1 (2 orders, 150.00, 1 day) and C2 (1 order, 200.00, 6 days) |
| Rollups.MonthGroupIds | dashboard.py:62-66 | A month's distinct order ids are exactly the ids of the delivered orders placed in it |
| Rollups.MonthlyDeliveredSpec | dashboard/dashboard.py:64-75 | Months come out strictly ascending; a month is listed iff a delivered order was placed in it; its value is its number of distinct delivered ids, at least one |
| Rollups.OrdersAtMostLines | dashboard.py:97 | Counting lines and counting distinct orders list the same categories, and a category's order count is between 1 and its line count |
| Rollups.LinesPerCategorySpec | dashboard/dashboard.py:106 | A category is listed iff some line has it, with the number of cells of the category column holding it |
| Rollups.HourlyCountsSpec | dashboard/dashboard.py:140 | Hours strictly ascend; an hour is listed iff an order was placed in it, with the number of such orders (at least one); the counts add up to the orders whose hour is present |
| Rollups.RevenueConserved | dashboard/dashboard.py:151-152 | The category revenues add up to the price total of every line whose category is present |
| Rollups.TopRevenueSpec | dashboard/dashboard.py:154 | The top-revenue table has min(10, categories) entries, each its category's revenue, in descending order, none below a category left out, and drawn from the revenue table |
| AppDashboard.Render | dashboard/dashboard.py:44-225 | The concrete run of the app script is an admissible result for its window |
| AppDashboard.ProductPanels | dashboard/dashboard.py:106-109 | Best and worst five categories by lines sold: min(5, categories) each, drawn from the counts, best descending and worst ascending, best never below a category left out, worst never above; overlap below ten categories, disjoint from ten on |
| AppDashboard.RfmPanels | dashboard/dashboard.py:203-225 | Each RFM panel shows min(5, customers of the window) rows, and over a non-empty window the recency panel starts at one day |
| AppDashboard.WindowKeeps | dashboard/dashboard.py:44-45 | An order is shown iff its purchase day lies in [start, end) or it was placed at midnight opening `end` |
| RootDashboard.Render | dashboard.py:40-152 | The concrete run of the root script is an admissible result for its window |
| RootDashboard.ProductPanels | dashboard.py:97-103 | Best and worst five categories by distinct orders: min(5, categories) each, best descending, worst ascending, dominance both ways, overlap below ten categories, disjoint from ten on |
| RootDashboard.RfmPanelsIgnoreWindow | dashboard.py:133-152 | The RFM panels are the same whatever window the sidebar selects |
| RootDashboard.RfmPanelsSpec | dashboard.py:146-152 | Each RFM panel shows min(5, customers) rows of `rfm_df`, in its metric's order, none ranked behind a row it leaves out |

## Left out

- CSV loading and `pd.to_datetime` (dashboard/dashboard.py:11-25, dashboard.py:11-21): these are I/O. The model starts from parsed rows.
- The charts, styling and layout (seaborn, matplotlib, `st.*`), the `babel` import and streamlit's reruns: these are presentation and runtime, not computation.
- The sidebar's `min_value`/`max_value` bounds (dashboard/dashboard.py:30-41, dashboard.py:26-37): `start` and `end` are free parameters of every window function.
- The revenue percentages and the metric means (dashboard/dashboard.py:153, 192-196; dashboard.py:122, 136-140): these are floating-point divisions. Only the sums they divide are modelled (`Rollups.RevenueConserved`, `Rfm.MonetaryConserved`).
- Prices: float64 in the source, whole cents here, so sums are exact.
- Timestamps: nanosecond resolution in the source, whole seconds here.
- `Rfm.ReferenceInstant` requires a non-empty window. pandas gives NaT for an empty one; the model gives an empty RFM table and never reads the reference instant.
- The `astype(str)` month labels (dashboard/dashboard.py:78, dashboard.py:70): months are kept as period ordinals, which sort the same way.
- Group-by output order: pandas lists groups in key order, the model in order of first appearance. Every consumer re-sorts the groups, and months and hours are proved strictly ascending after the sort, so nothing observable depends on it.
- Ties in `sort_values`: the order among equal keys is left open rather than fixed to a stable sort. The proved properties hold for every tie-break.
- Missing values outside the category and purchase-hour columns: `customer_unique_id`, `order_id`, `order_status`, `price` and the purchase timestamp are assumed present in every row. pandas would skip a NaN or NaT in `nunique`, `sum` and `max`, and a NaT fails both window comparisons; the model has no such cells.
- `rfm_df` (dashboard.py:11) is a precomputed file. Its contents are a parameter of `RootDashboard.Render`; how it was produced is not part of this model.
