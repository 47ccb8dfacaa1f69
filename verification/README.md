# Olist e-commerce dashboard: the aggregation core

A Dafny model of the data pipeline behind the Olist e-commerce dashboard.
The pipeline reads two tables, which are inputs to the model:

- the order table, with one line per ordered item: order, product, customer, customer state, optional product category, price and purchase timestamp;
- the RFM table, with each customer's Recency, Frequency and Monetary values.

On every change of the sidebar selection (a period and a product category), the dashboard recomputes the following:

- the period and category filters on the order table, and the category join that selects RFM rows;
- the daily orders table, and the "Total Orders" and "Total Revenue" metrics derived from it;
- revenue and quantity per product category, sorted by revenue;
- revenue per product, sorted by revenue;
- distinct customers per state;
- the three RFM averages;
- the five best customers by Recency, by Frequency and by Monetary.

Modules, one per file:

- `Records` (`records.dfy`): the two record types, and the calendar day of a timestamp.
- `Seqs` (`seqs.dfy`): order-preserving filtering, sums, distinct elements, and the descending sort with its top-n prefix.
- `Filters` (`filters.dfy`): the period mask, the category mask and the RFM category join.
- `DailyOrders` (`daily.dfy`): the daily resample and its totals.
- `Grouping` (`grouping.dfy`): the generic group-by with a sum and a count per key, where rows with a missing key are dropped.
- `Views` (`views.dfy`): the category, product and state views.
- `Rfm` (`rfm.dfy`): the means and the top-5 rankings.
- `Dashboard` (`dashboard.dfy`): one full recomputation for a selection.

Modelling choices:

- Timestamps are integer seconds. A calendar day is the number of days since the epoch, so `Day(ts) = ts / 86400`.
- Prices and Monetary values are integer cents, so every sum is exact.
- A mean is an exact `real`, and `None` on an empty table.
- A missing category is `None`.
- The category selection is a string. `"All"` is the sentinel for "no category filter".
- Sorting is descending by an integer key. The Recency ranking sorts descending by minus the recency.
- No tie order is claimed for any sort.

Behaviour of the code that a reader might not expect:

- **End of the period.** Each full timestamp is compared with the string of each selected date (`olist_dashboard.py:85-88`). That string means midnight, so the end date is included only up to its midnight. A line bought on the end date at 00:01 is dropped (`Filters.EndDayAfterMidnightExcluded`, `Dashboard.ExamplePeriodDropsEndDay`), and a line bought at exactly midnight is kept.
- **Span of the daily table.** The daily table resamples the filtered lines (`olist_dashboard.py:18`). Its days therefore run from the first to the last purchase day present, not over the selected period, and an empty selection gives an empty table.
- **Ties.** `sort_values` does not promise a stable order by default, so the model leaves the order of equal values open.

## Model

| member | source | states |
|---|---|---|
| Filters.DateFilter | olist_dashboard.py:85-88 | The kept lines are exactly those stamped between midnight of the start day and midnight of the end day. Each keeps its multiplicity and its order. In calendar terms: from the start day on, and before the end day or exactly at its midnight |
| Filters.EndDayAfterMidnightExcluded | olist_dashboard.py:86-87 | A line bought on the end day, at any time but midnight, is not kept |
| Filters.CategoryFilter | olist_dashboard.py:90-91 | With "All" the table is unchanged. Otherwise exactly the lines of the selected category are kept, with their multiplicity and order. Lines without a category are dropped |
| Filters.FilterOrders | olist_dashboard.py:85-91 | The filtered table is a subsequence of the order table. It keeps every copy of each line that passes both the period mask and the category mask, and no other line |
| Filters.CategoryCustomers | olist_dashboard.py:154-155 | A customer is a buyer of the category exactly when some line of the whole order table has that customer and that category |
| Filters.RfmSubset | olist_dashboard.py:150-157 | With "All" every RFM row is kept. Otherwise the kept rows are exactly those whose customer has a line in the category anywhere in the unfiltered order table, every copy of each. The rows stay in order |
| DailyOrders.FirstDay | olist_dashboard.py:18 | The day is the earliest purchase day of a non-empty table, and some line falls on it |
| DailyOrders.LastDay | olist_dashboard.py:18 | The day is the latest purchase day of a non-empty table, and some line falls on it |
| DailyOrders.DayRows | olist_dashboard.py:18-21 | One row per day from `lo` to `hi`, in order. Each row carries that day's number of distinct order ids and the summed price of its lines |
| DailyOrders.Daily | olist_dashboard.py:17-27 | An empty table gives no rows, and only an empty one does. Otherwise the rows run over consecutive days from the first to the last purchase day. Each row's order count is the number of distinct orders of its day, and its revenue is the summed price of that day's lines |
| DailyOrders.DailyCoversPurchaseDays | olist_dashboard.py:18 | Every line's purchase day has a row in the daily table |
| DailyOrders.EmptyDayIsZero | olist_dashboard.py:18-21 | A day with no line has no order and no revenue |
| DailyOrders.DailyZeroRows | olist_dashboard.py:18-21 | A daily row counts no order exactly when no line falls on its day, and then its revenue is zero |
| DailyOrders.DailyRevenueTotal | olist_dashboard.py:109-110 | The revenue column of the daily table sums to the total price of the filtered lines (the "Total Revenue" metric) |
| DailyOrders.DailyOrderTotal | olist_dashboard.py:105-107 | When all lines of an order share a purchase day, the order-count column sums to the number of distinct orders (the "Total Orders" metric) |
| DailyOrders.OrdersSplit | olist_dashboard.py:19 | Under that condition, the number of distinct orders of a range of days is that of its first day plus that of the remaining days |
| DailyOrders.TwoDayExample | olist_dashboard.py:17-27 | Two orders and revenue 35 on 2024-01-01, then one order and revenue 30 on 2024-01-02. The table has three lines on the first day (two in order "A") and one on the second |
| Grouping.KeysOf | olist_dashboard.py:31 | A key is listed exactly when some row carries it. Rows without a key contribute nothing |
| Grouping.GroupBy | olist_dashboard.py:31-35 | One group per distinct present key and no other. Each group holds the sum of its rows' values and its (positive) row count |
| Grouping.SortedGroupBy | olist_dashboard.py:31-36 | The groups of the group-by, reordered so that totals do not increase, each still intact |
| Grouping.PermutedGroups | olist_dashboard.py:36 | Reordering a group-by result keeps the keys distinct, keeps the same key set and keeps every group's figures |
| Grouping.GroupByPreservesSums | olist_dashboard.py:31-36 | The group totals add up to the total value of the rows that have a key. The group counts add up to the number of such rows |
| Views.TopProductCategory | olist_dashboard.py:29-39 | One row per category present, with none repeated and none missing. Each row has the category's total revenue and its number of lines. The rows are in non-increasing revenue order |
| Views.TopProductCategoryTotals | olist_dashboard.py:31-35 | The revenue column sums to the price of the lines with a category. The quantity column sums to the number of those lines |
| Views.NullCategoriesIgnored | olist_dashboard.py:31 | Removing the lines without a category leaves the category view unchanged |
| Views.ProductRows | olist_dashboard.py:42 | The product table has one row per group, with the group's key and total, and the same sum |
| Views.TopProducts | olist_dashboard.py:41-43 | One row per distinct product, with none repeated and none missing. Each row carries the product's summed price. The rows are in non-increasing price order |
| Views.TopProductsTotal | olist_dashboard.py:42 | The price column of the product view sums to the total price of the table |
| Views.CustomersByState | olist_dashboard.py:45-50 | One row per state present, with none repeated. Each count is the number of distinct customers of that state, which is at least 1 and at most that state's number of lines |
| Views.CustomersAtMostLines | olist_dashboard.py:46 | A state never has more distinct customers than lines |
| Views.StatesSplit | olist_dashboard.py:46 | When each customer lives in one state, the distinct customers of a list of distinct states number those of the first state plus those of the other states |
| Views.CustomersByStateTotal | olist_dashboard.py:46 | When each customer lives in one state, the state counts add up to the number of distinct customers |
| Rfm.Mean | olist_dashboard.py:161-169 | No mean exists for an empty table, and only then. Otherwise the mean times the number of rows is the column sum |
| Rfm.MeanWithinBounds | olist_dashboard.py:161-169 | The mean lies between any lower and upper bound of the column |
| Rfm.Summarize | olist_dashboard.py:159-170 | Each of the three averages is missing exactly when no customer is selected. Otherwise each is its column's sum divided by the number of customers |
| Rfm.TopByRecency | olist_dashboard.py:178 | At most five rows, and fewer only when the table is smaller. Recency does not decrease along the ranking. The rows come from the table, and every row left out has at least the recency of every row shown. The first row has the smallest recency of the table |
| Rfm.TopByFrequency | olist_dashboard.py:189 | Like the recency ranking, but by non-increasing frequency. Every row left out has at most the frequency of every row shown |
| Rfm.TopByMonetary | olist_dashboard.py:200 | Like the recency ranking, but by non-increasing monetary value. Every row left out has at most the value of every row shown |
| Seqs.Filter | olist_dashboard.py:85-91 | The result keeps exactly the rows satisfying the predicate, each with its multiplicity, in their original order |
| Seqs.SortDesc | olist_dashboard.py:36 | The result is a permutation of the input, sorted by non-increasing key |
| Seqs.TopN | olist_dashboard.py:178 | The first `min(n, len)` rows of the sort: a sub-multiset of the input, sorted, and dominating every row left out |
| Seqs.SumByPermutation | olist_dashboard.py:36 | Reordering a table does not change a column's sum |
| Dashboard.Build | olist_dashboard.py:84-110 | The "Total Revenue" is the price of the filtered lines. The "Total Orders" is their number of distinct orders when each order falls on one day. With a category selected, every ranked customer bought in that category |
| Dashboard.RfmIgnoresPeriod | olist_dashboard.py:150-157 | Two selections with the same category show the same RFM averages and rankings, whatever their periods |
| Dashboard.ExamplePeriodDropsEndDay | olist_dashboard.py:85-88 | On the two-day example, the period from 2024-01-01 to 2024-01-02 keeps the first day's lines and drops the line bought at 00:01 on the end day |

## Left out

- Streamlit UI: the sidebar, the widgets, the page markup and the reset button (`olist_dashboard.py:61-82`, 99-104). These are presentation and interactive state. The selection is a parameter.
- Reset button: pressing it sets the bounds to the exact first and last timestamps rather than to dates. This is not modelled. A selection is always a pair of days.
- Plotting with matplotlib and seaborn (lines 2-3, 7-14, 113-146, 173-208): rendering only. This covers the `head(10)` that limits the category and product charts, and the re-sort of the state view at line 141.
- CSV loading and timestamp parsing (lines 53-54): file I/O. The two tables are parameters.
- The bounds of the date widget (lines 57-58), and the category list (line 59): UI only.
- Currency formatting with `format_currency` (lines 110, 169): a foreign display routine.
- Float rounding of the averages with `round(…, 1)` and `round(…, 2)` (lines 161, 165): display rounding. The model's means are exact.
- Tie order: `sort_values` is not stable by default. No order among equal keys is claimed, and the rankings state dominance instead.
- Key order of the state view: the group-by returns states in key order, and the caller re-sorts them for display. The model states the view as a set of distinct rows and claims no order.
- The "All" sentinel: a real category named "All" could not be selected, exactly as in the code.
- Views.TopProductCategory: `total_quantity` counts non-null product ids. Every line has a product id here, so it is the line count.
- DailyOrders.DailyOrderTotal: assumes that all lines of an order share one purchase day. Otherwise an order spanning two days is counted on both, as the code's per-day distinct count does.
- Views.CustomersByStateTotal: assumes that each customer lives in one state. Otherwise a customer is counted once per state.
