# RFM engine of the customer-segmentation dashboard

This project models the computation at the heart of `rfm_dashboard.py`, a
Streamlit dashboard that segments customers by Recency, Frequency and
Monetary value (RFM). It covers the script from the loaded transaction table
up to the finished, segmented customer table and the views drawn from it:

- **Schema** (`schema.dfy`). Header names are stripped of surrounding
  whitespace. The four superstore-style names ("Customer ID", "Order Date",
  "Order ID", "Sales") are renamed to the canonical ones. The run then stops
  with the list of required columns that are still missing, in the order of
  the required list.
- **Aggregation** (`aggregation.dfy`). Rows whose date did not parse are
  dropped. The snapshot date is the latest remaining date plus one day. Each
  customer gets:
  - Recency: the snapshot minus their latest date, in days;
  - Frequency: the number of their distinct invoice numbers;
  - Monetary: the sum of their amounts.
  Customers come out in ascending order, and rows without a customer form no
  group.
- **Quantile scoring** (`quantiles.dfy`, `scoring.dfy`).
  - `pd.qcut` into four bins with `duplicates="drop"`, and the `safe_qcut`
    fallback to the first label when qcut raises.
  - `rank(method="first")`.
  - The three score columns R, F and M. R uses labels 4..1, so a recent
    customer scores high.
- **Segmentation** (`segments.dfy`). The three-digit code R, F, M and the
  ordered table of exact codes in `segment_customer`, with "Others" as the
  fallback.
- **Views** (`views.dfy`):
  - the sidebar segment filter;
  - the segment counts;
  - revenue per segment;
  - the top customers by Monetary;
  - `DashboardViews`, which wires them as the script does: the counts and the
    top ten come from the filtered table, the revenue split from the whole one.
- **Pipeline** (`engine.dfy`). `RunEngine` performs the steps in the script's
  order. It is proved equal to the function `ComputeRfm`, and the whole-run
  properties are lemmas about that function.

`wrappers.dfy` holds `Option` and `Result`. `seqs.dfy` holds the
order-preserving filter used by the column check and the segment filter, and
the count used by the segment counts.

Quantile edges are computed exactly in integers. pandas interpolates linearly
at q = 0, 1/4, 1/2, 3/4 and 1 over the sorted values; four times each such
quantile is an integer. `Bucket` therefore compares `4 * x` with the scaled
edges. Bins are closed on the right, and the lowest edge belongs to bin 1.
qcut with four labels raises whenever two edges coincide, because dropping
duplicate edges leaves fewer bins than labels. It also raises on an empty
column. `QCut` returns `None` in both cases.

## Model

| member | source | states |
|---|---|---|
| Schema.Strip | rfm_dashboard.py:43 | `str.strip()` returns a slice of the name with only whitespace cut away on either side, and the result neither starts nor ends with whitespace |
| Schema.StripIdempotent | rfm_dashboard.py:43 | stripping an already stripped name changes nothing |
| Schema.Rename | rfm_dashboard.py:45-52 | `rename` leaves every name outside the mapping unchanged, and a name it changes is a superstore alias turned into a required name |
| Schema.NormaliseColumns | rfm_dashboard.py:43-52 | the normalised header has one name per raw column, in place; each is the stripped raw name, or a required name when the stripped name is an alias |
| Schema.RenameReachesRequired | rfm_dashboard.py:45-52 | renaming yields a required name exactly when the raw name is that name or its superstore alias |
| Schema.MissingRequired | rfm_dashboard.py:54-56 | for a given header, the missing list holds exactly the required names absent from it, as a subsequence of the required list |
| Schema.MissingColumns | rfm_dashboard.py:54-56 | the missing list holds exactly the required names absent from the stripped and renamed header, as a subsequence of the required list (so in its order) |
| Schema.NormalisedHolds | rfm_dashboard.py:43-56 | the normalised header contains a required name exactly when some raw header name, once stripped, is accepted for it |
| Schema.RequiredColumnPresent | rfm_dashboard.py:43-60 | a required name is absent from the missing list exactly when some raw header name, once stripped, is the name or its alias |
| Seqs.Filter | rfm_dashboard.py:56 | the comprehension keeps exactly the elements satisfying the condition, as a subsequence of the input, with length equal to their count |
| Seqs.FilterMultiset | rfm_dashboard.py:56 | filtering keeps every satisfying element as often as it occurs and drops every other one |
| Aggregation.DropUndated | rfm_dashboard.py:65-66 | `dropna` never adds rows: the dated table is at most as long as the input (its exact contents are the next two rows) |
| Aggregation.DropUndatedMembers | rfm_dashboard.py:65-66 | every kept row comes from an input row with that date, and every input row whose date parsed is kept |
| Aggregation.DropUndatedCounts | rfm_dashboard.py:65-66 | each dated row occurs as often as the input row it came from, so repeated rows are all kept and undated rows never appear |
| Aggregation.LatestDayIsMax | rfm_dashboard.py:68 | `LatestDay`, the `max()` of the parsed days, is an upper bound of them and is attained by one of them |
| Aggregation.SnapshotDateSpec | rfm_dashboard.py:65-68 | `SnapshotDate` exists exactly when some date parsed; it is later than every parsed date and one day after some parsed date |
| Aggregation.InsertKey | rfm_dashboard.py:70 | inserting a key keeps the key list strictly increasing, and the head is the new key or the old head |
| Aggregation.InsertKeyMembers | rfm_dashboard.py:70 | inserting adds the key and keeps every key already there |
| Aggregation.CustomerIds | rfm_dashboard.py:70 | the group keys are strictly increasing (sorted, no duplicates) |
| Aggregation.CustomerIdsMembers | rfm_dashboard.py:70 | the group keys are exactly the customers occurring in the dated rows; rows without a customer form no group |
| Aggregation.RowsOfMembers | rfm_dashboard.py:70 | a group holds exactly the dated rows of its customer |
| Aggregation.RowsOfCounts | rfm_dashboard.py:70 | a group holds each row of its customer as often as the dated table does, and no row of another customer |
| Aggregation.KeysHaveRows | rfm_dashboard.py:70 | every group key has at least one row |
| Aggregation.InvoicesAtMostRows | rfm_dashboard.py:72 | `nunique` of a group's invoice numbers is at most its number of rows |
| Aggregation.Summarise | rfm_dashboard.py:70-74 | a group's summary row keeps its customer, and its Frequency is between 1 and the number of its rows |
| Aggregation.SummariesAt | rfm_dashboard.py:70-74 | row i of the summaries is the summary of the i-th key's rows |
| Aggregation.Aggregate | rfm_dashboard.py:70-76 | the grouped table has one row per group key |
| Aggregation.AggregateAt | rfm_dashboard.py:70-76 | row i belongs to the i-th key: Recency is snapshot minus that customer's latest day, Frequency the number of their distinct invoices, Monetary the sum of their amounts |
| Aggregation.AggregateAscending | rfm_dashboard.py:70-74 | the grouped table lists customers in strictly ascending order, so each customer appears once |
| Aggregation.AggregateCustomers | rfm_dashboard.py:65-74 | the grouped table has a row for a customer exactly when that customer has a row with a parseable date |
| Aggregation.AggregateSums | rfm_dashboard.py:70-74 | Frequency is the number of distinct invoices of the customer's dated rows and is at least 1; Monetary is the sum of their amounts |
| Aggregation.RecencyBounds | rfm_dashboard.py:68-71 | every Recency is at least 1, and it is exactly 1 when the customer has a row on the latest date |
| Aggregation.GroupSumIsCustomerTotal | rfm_dashboard.py:65-73 | summing a customer's group after `dropna` equals summing the amounts of their dated input rows directly, repeated rows included |
| Aggregation.GroupInvoicesAreCustomerInvoices | rfm_dashboard.py:65-72 | a customer's distinct invoices after `dropna` are the invoice numbers of their dated input rows |
| Aggregation.AggregateFromInput | rfm_dashboard.py:65-76 | each grouped row, stated on the input alone: Frequency is the number of distinct invoices and Monetary the sum of amounts over the customer's dated input rows |
| Quantiles.SortAsc | rfm_dashboard.py:83 | the sorted copy has the column's length (its order and contents are the rows SortAscSorted and SortAscPermutes) |
| Quantiles.InsertAscSorted | rfm_dashboard.py:83 | inserting into an ascending sequence keeps it ascending |
| Quantiles.InsertAscPermutes | rfm_dashboard.py:83 | inserting adds exactly one occurrence of the value |
| Quantiles.SortAscSorted | rfm_dashboard.py:83 | the sorted copy used for the quantiles is ascending |
| Quantiles.SortAscPermutes | rfm_dashboard.py:83 | the sorted copy is a permutation of the column |
| Quantiles.SortedMembers | rfm_dashboard.py:83 | the sorted copy holds exactly the column's values |
| Quantiles.SortedEnds | rfm_dashboard.py:83 | the first and last sorted values are the column's minimum and maximum |
| Quantiles.ScaledQuantile | rfm_dashboard.py:83 | the linear interpolation at a whole position is that element, and between two positions lies between the two elements |
| Quantiles.QuartileEdges | rfm_dashboard.py:83 | five edges; the outer ones are four times the minimum and four times the maximum |
| Quantiles.ScaledQuantileMonotone | rfm_dashboard.py:83 | on sorted data, a higher quantile level never gives a lower edge |
| Quantiles.ScaledQuantileIncreasing | rfm_dashboard.py:83 | on strictly increasing data, a higher quantile level gives a strictly higher edge |
| Quantiles.EdgesIncreasing | rfm_dashboard.py:83 | strictly increasing data with two or more values has five strictly increasing edges |
| Quantiles.Bucket | rfm_dashboard.py:83 | the bin is between 1 and 4 and is the right-closed interval of the edges holding the value; the lowest edge falls in bin 1 |
| Quantiles.Binned | rfm_dashboard.py:83 | each value is replaced by the label of its bin |
| Quantiles.QCut | rfm_dashboard.py:83 | when qcut succeeds it returns one label per value, each drawn from the labels |
| Quantiles.QCutAt | rfm_dashboard.py:83 | when qcut succeeds, its edges are strictly increasing and each value gets the label of its bin |
| Quantiles.SafeQCut | rfm_dashboard.py:81-85 | `safe_qcut` returns one score per value, each from the labels, and all equal to the first label when qcut raises |
| Quantiles.BinsFollowValues | rfm_dashboard.py:83 | a value no larger than another never lands in a later bin, so ascending labels never decrease and descending labels never increase |
| Quantiles.SafeQCutMonotone | rfm_dashboard.py:81-85 | with ascending labels a larger value never gets a lower score, and with descending labels never a higher one, on the fallback path too |
| Quantiles.QCutExtremes | rfm_dashboard.py:83 | when qcut succeeds, the minimum gets the first label and the maximum gets the last |
| Quantiles.QCutConstantFails | rfm_dashboard.py:81-85 | a constant non-empty column makes qcut raise, so every score is the first label |
| Quantiles.DistinctSortsIncreasing | rfm_dashboard.py:83 | sorting pairwise distinct values gives a strictly increasing sequence |
| Quantiles.QCutDistinctSucceeds | rfm_dashboard.py:83 | qcut never raises on two or more pairwise distinct values |
| Quantiles.RankFirst | rfm_dashboard.py:88 | `rank(method="first")` gives one rank per value |
| Quantiles.CountRankedBeforeBound | rfm_dashboard.py:88 | a position is never ranked before itself, so its rank is at most n |
| Quantiles.CountRankedBeforeGrows | rfm_dashboard.py:88 | a position ranked before another has strictly fewer positions before it |
| Quantiles.RankFirstOrders | rfm_dashboard.py:88 | ranks are between 1 and n, pairwise distinct, and follow the value with ties broken by position |
| Quantiles.RankFirstIsPermutation | rfm_dashboard.py:88 | every rank from 1 to n is used, so the ranks are a permutation of 1..n |
| Quantiles.RankedBinningSucceeds | rfm_dashboard.py:88 | qcut of the first-ranks succeeds exactly when there are at least two customers |
| Scoring.Recencies | rfm_dashboard.py:87 | the Recency column, one entry per grouped row |
| Scoring.Frequencies | rfm_dashboard.py:88 | the Frequency column, one entry per grouped row |
| Scoring.Monetaries | rfm_dashboard.py:89 | the Monetary column, one entry per grouped row |
| Scoring.ScoreRow | rfm_dashboard.py:87-95 | a scored row keeps the grouped values and adds the given scores with their code and segment |
| Scoring.RScores | rfm_dashboard.py:87 | one R score per customer, each between 1 and 4, and 4 for everyone when qcut of Recency raises |
| Scoring.FScores | rfm_dashboard.py:88 | one F score per customer, each between 1 and 4, and 1 for everyone when qcut of the Frequency ranks raises |
| Scoring.MScores | rfm_dashboard.py:89 | one M score per customer, each between 1 and 4, and 1 for everyone when qcut of Monetary raises |
| Scoring.AddScoreColumns | rfm_dashboard.py:87-95 | adding the columns keeps each grouped row and attaches its three scores, the code and the segment |
| Scoring.ScoreTable | rfm_dashboard.py:87-114 | the scored table has one row per grouped row, with the `safe_qcut` scores of the three columns |
| Scoring.RecencyScoreMonotone | rfm_dashboard.py:87 | a customer with smaller Recency never gets a lower R score |
| Scoring.MonetaryScoreMonotone | rfm_dashboard.py:89 | a customer with larger Monetary never gets a lower M score |
| Scoring.FrequencyScoreMonotone | rfm_dashboard.py:88 | a customer with larger Frequency, or equal Frequency later in the table, never gets a lower F score |
| Scoring.SegmentFollowsScores | rfm_dashboard.py:91-114 | two customers have the same code exactly when they have the same three scores, and the segment is the one given by the scores |
| Scoring.FrequencyBinningSucceeds | rfm_dashboard.py:88 | with two or more customers the F column never falls back, whatever the Frequencies |
| Scoring.SingleCustomerFallback | rfm_dashboard.py:81-114 | a single customer gets R=4, F=1, M=1, code "411" and segment "Others" |
| Scoring.RecencyColumnExtremes | rfm_dashboard.py:87 | the customer with the smallest or largest Recency holds the smallest or largest entry of the R input column |
| Scoring.MonetaryColumnExtremes | rfm_dashboard.py:89 | the customer with the smallest or largest Monetary holds the smallest or largest entry of the M input column |
| Scoring.RecencyScoreExtremes | rfm_dashboard.py:87 | when the R column is binned, the most recent customer scores 4 and the least recent scores 1 |
| Scoring.MonetaryScoreExtremes | rfm_dashboard.py:89 | when the M column is binned, the largest Monetary scores 4 and the smallest scores 1 |
| Segments.Digit | rfm_dashboard.py:91-95 | a one-digit score becomes a character between '0' and '9' |
| Segments.RfmCode | rfm_dashboard.py:91-95 | the code has three decimal digits |
| Segments.ParseRfmCode | rfm_dashboard.py:91-95 | the code is the R digit, then the F digit, then the M digit; reading it back gives the three scores |
| Segments.FirstMatch | rfm_dashboard.py:100-112 | the `if`/`elif` chain returns "Others" or the segment of a branch whose list holds the code |
| Segments.FirstMatchFirstWins | rfm_dashboard.py:100-112 | a code gets the segment of the earliest branch whose list holds it |
| Segments.FirstMatchFallsThrough | rfm_dashboard.py:100-112 | a code in no list falls through to "Others" |
| Segments.SegmentCustomer | rfm_dashboard.py:100-112 | `segment_customer` gives a listed code the segment of its list, and every other code "Others" |
| Segments.RulesDisjoint | rfm_dashboard.py:100-112 | the five code lists of `segment_customer` are pairwise disjoint |
| Segments.FirstMatchIsUnique | rfm_dashboard.py:100-112 | with disjoint lists, a listed code gets the segment of the one list containing it whatever the branch order, and an unlisted code gets "Others" |
| Segments.SegmentTableRecency4 | rfm_dashboard.py:100-112 | the codes 4xy are Champions exactly when F and M are at least 3, and "Others" otherwise |
| Segments.SegmentTableRecency3 | rfm_dashboard.py:100-112 | the codes 3xy are Loyal Customers exactly for 344, 343 and 334, and "Others" otherwise |
| Segments.SegmentTableRecency2 | rfm_dashboard.py:100-112 | the codes 2xy are Potential Loyalist exactly for 244, 243 and 234, and "Others" otherwise |
| Segments.SegmentTableRecency1 | rfm_dashboard.py:100-112 | the codes 1xy are New Customers for 144 and 143, At Risk for 111, 112 and 121, and "Others" otherwise |
| Segments.SegmentTableByScores | rfm_dashboard.py:91-114 | over all 64 score triples, the segment of the code equals the segment given by conditions on the scores |
| Segments.NamesDistinct | rfm_dashboard.py:100-131 | the six segment names are distinct, and none is the filter's "All" |
| Views.FilterBySegment | rfm_dashboard.py:128-131 | "All" keeps the table unchanged; any other selection keeps exactly the rows whose segment has that name, each as often as before, in their original order |
| Views.FilterSelectsSegment | rfm_dashboard.py:128-131 | selecting a segment's name keeps exactly that segment's rows, in order |
| Views.SegmentCounts | rfm_dashboard.py:169 | `value_counts()` has an entry exactly for each segment that occurs, holding its number of rows, which is at least 1 |
| Views.SegmentCountIsFilterSize | rfm_dashboard.py:128-131 | a segment's count is the number of rows the sidebar filter shows for that segment |
| Views.CountsPartitionRows | rfm_dashboard.py:169 | the six segment counts add up to the number of rows |
| Views.SegmentRevenues | rfm_dashboard.py:187 | the revenue groupby has an entry exactly for each segment that occurs, holding the sum of Monetary over its rows |
| Views.RevenuePartitionsTotal | rfm_dashboard.py:187 | the six segment revenues add up to the total Monetary |
| Views.InsertByMonetarySorted | rfm_dashboard.py:220 | inserting into a Monetary-descending sequence keeps it descending |
| Views.InsertByMonetaryPermutes | rfm_dashboard.py:220 | inserting adds exactly one occurrence of the row |
| Views.SortByMonetaryDesc | rfm_dashboard.py:220 | the sorted table has the table's length (its order and contents are the next row) |
| Views.SortByMonetaryDescSpec | rfm_dashboard.py:220 | `sort_values("Monetary", ascending=False)` is a Monetary-descending permutation of the table |
| Views.PrefixOfSortedIsTop | rfm_dashboard.py:220 | a prefix of a descending permutation takes rows of the table, and no row left out has a higher Monetary than a row taken |
| Views.TopCustomers | rfm_dashboard.py:220 | `head(n)` of the sorted table has min(n, rows) rows drawn from the table, sorted by Monetary descending, and no row left out has a higher Monetary than a row shown |
| Views.TopOfFilteredIsSelected | rfm_dashboard.py:128-131 | the top customers of the filtered table are rows of the table, all of the selected segment |
| Views.CountsOfFilteredAreSelected | rfm_dashboard.py:128-131 | counting the filtered table finds only the selected segment, with its count in the whole table |
| Views.DashboardViews | rfm_dashboard.py:128-220 | as the dashboard wires the views: at most ten top customers, all of the selected segment; counts only for the selected segment, each equal to its count in the whole table, and all of them when "All" is selected; revenue per segment over the whole table whatever the selection |
| Engine.ComputeRfm | rfm_dashboard.py:43-114 | the run stops with the missing-column error exactly when a required column is missing; otherwise it returns one scored row per grouped row |
| Engine.RunEngine | rfm_dashboard.py:43-114 | the step-by-step pipeline produces exactly `ComputeRfm` of its input |
| Engine.RunFollowsAggregate | rfm_dashboard.py:54-114 | with every required column present the run succeeds, with one row per grouped customer, in the grouped order |
| Engine.RunCustomersAscending | rfm_dashboard.py:54-114 | with every required column present the run succeeds and lists each customer once, in ascending order |
| Engine.ScoredCustomersAreDated | rfm_dashboard.py:65-114 | every customer of the scored table has an input row with a parseable date |
| Engine.ScoredListsDatedCustomers | rfm_dashboard.py:65-114 | every customer with an input row with a parseable date has a row in the scored table |
| Engine.RunCustomersPresent | rfm_dashboard.py:54-114 | with every required column present the run succeeds, with a row for a customer exactly when that customer has a row with a parseable date |
| Engine.RunRow | rfm_dashboard.py:54-114 | with every required column present, every row of the run has Recency and Frequency at least 1, three scores between 1 and 4, and the segment given by those scores |

General proof helpers, which state nothing about the dashboard on their own and
have no row: `Seqs.CountAgrees`, `Seqs.CountAll`, `Quantiles.TwoOccurrences`,
`Quantiles.DistinctMultiplicity`, `Quantiles.IncreasingInRange` and
`Quantiles.Gap`.

## Left out

- Streamlit page setup, widgets, messages, the KPI cards and the `st.stop` control flow (rfm_dashboard.py:7-10, 27-38, 119-126, 136-143, 221, 241-245, 252-260): user-interface glue. The segment names offered in the sidebar (121-126) become the `selected` string of `FilterBySegment`. The stop after the missing-column message is modelled as the `Err` result of `ComputeRfm`.
- CSV loading, file checks and encoding (rfm_dashboard.py:15-33), and the CSV export (rfm_dashboard.py:250-257): file I/O and pandas serialisation.
- Plotly charts (rfm_dashboard.py:155-213): a foreign rendering library. The model keeps only the tables they draw: the segment counts and the segment revenues.
- The monthly revenue trend (rfm_dashboard.py:150-153): it depends on calendar months, which the day-number model of dates does not have.
- Float averages, rounding and the percentage insights (rfm_dashboard.py:141-143, 228-239): floating-point presentation.
- Date parsing by `pd.to_datetime`: a parsed date is an integer day number, and a date that does not parse is `None`. Times within a day are left out, so Recency (`.days` of a timedelta) is a plain difference of day numbers.
- Monetary and amounts are integers (for example cents), so sums are exact. Missing amounts and missing invoice numbers, which pandas `sum` and `nunique` skip, are not modelled: every row has both.
- Customer IDs are integers, or `None` for a missing ID, which `groupby` drops. The superstore export has string IDs such as "CG-12520"; the model stands for them by integers in the same sort order, which is all the model uses: `groupby` orders its keys by it (rfm_dashboard.py:70), and that order is the tie-break of `rank(method="first")` (rfm_dashboard.py:88). Mixed-type IDs are not modelled.
- qcut's floating-point edges and its internal adjustment of the lowest edge are not modelled. The model uses exact scaled integer edges and puts a value on the lowest edge into bin 1, as qcut does.
- A header that holds the same name twice after renaming (for example both "Sales" and "Monetary") is not modelled: the header is a list of names, and the duplicate-column behaviour of pandas is left out.
- `rank(method="first")` returns floats in pandas; the model uses the integer ranks 1..n, which bin identically.
- Views.SegmentCounts: the result is a map, so it does not state the order of `value_counts()` (descending count). The chart only draws the pairs.
- Views.TopCustomers: does not fix the order among rows with equal Monetary, because pandas' default sort is not stable. The contract holds for any order of ties.
- Views.SortByMonetaryDesc: the particular order of ties chosen by insertion is one admissible order; only sortedness and permutation are stated.
