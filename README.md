# Fundraising dashboard — data rules

The dashboard (`app.py`) is a Streamlit script. It loads a table of
designation rows from an Excel table (`combined_df.xlsx`). Each row holds one part of a
contribution: a date, a donation type, a payment method (`cc_type`), a fund
name (`desination_name`), a `CONTRIBUTION_ID` and a `designated_value`. The
script narrows the table with four sidebar selections and then shows five
sections:

1. monthly totals with a year-over-year percentage;
2. months that are spikes or dips;
3. the five largest and the five smallest funds;
4. gift-level statistics per donation type and per payment method, with a
   Subtotal row;
5. the split of positive values into a small and a large histogram.

This project models the data rules behind those sections as Dafny
functions over a sequence of rows, and proves what each one promises.

Layout, one module per file:

- `Seqs`: the pandas primitives the script chains together. These are
  boolean masks (`Filter`), column sums and `sort_values` (`SortBy`).
- `Grouping`: `groupby(...).sum()` as `GroupSum` over key/amount pairs.
- `Donations`: the row record, and `GroupBy`. Rows whose key is null are
  dropped, as pandas' default `dropna=True` does.
- `Filters`: the sidebar filter chain.
- `Monthly`: monthly totals and the YoY column.
- `Outliers`: spikes and dips.
- `Funds`: the fund ranking and its top and bottom five.
- `Gifts`: the gift collapse, per-label statistics and the Subtotal row.
- `Distribution`: the low/high value partition.

Modelling choices:

- Amounts are integer cents, so `$1000` is `100000`.
- Means and percentages are `real`.
- A date is an optional `(year, month)`. It is None where `created_at`
  failed to parse.
- `ApplyFilters` follows the script step by step. It rebinds one variable
  under four `if` tests, and is proved equal to the single combined mask
  `Kept`.

## Model

| member | source | states |
|---|---|---|
| Filters.ApplyFilters | app.py:57-65 | The four successive narrowings give exactly `Kept`: the rows matching every selection that is not "All", in input order. |
| Filters.KeptRows | app.py:57-65 | A row is kept iff it is in the input and meets each non-"All" selection. A row with no date never meets a year selection. Each kept row appears as often as in the input. The result is a subsequence of the input. |
| Filters.AllSelectedKeepsEverything | app.py:57-65 | With every selection "All" the table is unchanged. |
| Filters.KeptIdempotent | app.py:57-65 | Filtering a filtered table with the same selections changes nothing. |
| Monthly.MonthlyTotalsOrdered | app.py:80 | The monthly series has strictly increasing months. This holds both by rank and on the calendar ordinal of `year_month`. |
| Monthly.MonthlyTotalsContents | app.py:80 | A month appears iff some row is dated in it. Its total is the sum of that month's rows. |
| Monthly.MonthlyConservation | app.py:80 | The monthly totals add up to the value of all dated rows. Undated rows drop out. |
| Monthly.PctChangeAt | app.py:81 | The YoY value exists iff the position is at least 12 and the entry 12 positions back is nonzero. When it exists, growing the earlier total by that percentage gives the current total. |
| Monthly.Trend | app.py:82 | One trend row per month, carrying that month's key and total. Its YoY value is defined as for `PctChangeAt`. |
| Monthly.PositionsSpanMonths | app.py:81 | In a strictly ordered series, positions a..b span at least b-a calendar months. They span exactly b-a iff there is no gap between them. |
| Monthly.YoYComparesSameMonthIff | app.py:81 | The entry 12 positions back is the same month a year earlier iff the 12 months before it are all present. |
| Outliers.OutliersMeaning | app.py:149-154 | For a nonempty series, a month is a spike iff its total is strictly above mean + sd, and a dip iff strictly below mean - sd. Neither exists with a single month (sd is NaN). Both lists are subsequences of the series. |
| Outliers.OutliersKeepOrder | app.py:153-154 | Over a series in strictly increasing month order, spikes and dips are in strictly increasing month order too. |
| Outliers.MonthlyOutliersInOrder | app.py:149-154 | Spikes and dips of the filtered rows' monthly totals are subsequences of those totals, in strictly increasing month order. |
| Outliers.SpikesAndDipsDisjoint | app.py:153-154 | No month is both a spike and a dip. |
| Outliers.FlatSeriesHasNoOutliers | app.py:153-154 | When all monthly totals are equal there are no spikes and no dips. |
| Outliers.OutliersNeverCoverTheSeries | app.py:153-154 | For a nonempty series, neither list holds every month. |
| Funds.RankingContents | app.py:173-174 | One entry per fund that some row is designated to, holding the total of that fund's rows. The entries are a reordering of the fund totals. |
| Funds.RankingOrdered | app.py:174 | The ranking is non-increasing in value. |
| Funds.TopFiveMeaning | app.py:177 | The top five is the first min(5, #funds) entries of the ranking. It is non-increasing, and each of its values is at least every value left out. It never fails when fewer than five funds exist. |
| Funds.BottomFiveContents | app.py:183 | The bottom five holds exactly the last min(5, #funds) entries of the ranking. |
| Funds.BottomFiveOrder | app.py:183 | The bottom five is non-decreasing, and each of its values is at most every value before the tail. |
| Gifts.GiftsMeaning | app.py:198 | One gift per distinct (contribution id, label) pair some row carries, holding that pair's total. All gifts together hold the value of the rows that have both. The same holds for `cc_type` at line 245. |
| Gifts.SplitGiftIsOneGift | app.py:198 | Two designations of one contribution under the same donation type collapse to one gift carrying the sum of both. |
| Gifts.LabelTotals | app.py:201-204 | Regrouped by label, the gift values of a label add up to the value of that label's rows that have a contribution id. A label appears iff such a row exists. |
| Gifts.CountIsDistinctIds | app.py:204 | The number of gifts of a label is the number of distinct contribution ids among that label's rows. |
| Gifts.GroupStatsMeaning | app.py:201-205 | Every line of `cc_stats` describes its group. Sum is the group's total. Count is the number of distinct contribution ids, at least 1. Mean is Sum/Count. StdDev is NaN iff there is a single gift, and otherwise non-negative. Labels are distinct, and lines are in non-increasing Sum. The same holds for `cc_type` at lines 248-252. |
| Gifts.GroupStatsNames | app.py:201-205 | There is a line for a label iff some row has that label and a contribution id. |
| Gifts.SubtotalMeaning | app.py:209-211 | The Subtotal line is appended after the per-group lines. Its Sum is the value of every row with a contribution id and a label, which is the sum of the group Sums. Its Count is the number of gifts, which is the sum of the group Counts. The same holds at lines 256-258. |
| Gifts.SubtotalMeanAndStdDev | app.py:209-211 | The Subtotal's Mean is the sum of the per-group Means, and its StdDev the sum of the defined deviations, whatever the group order. The same holds at lines 256-258. |
| Distribution.BucketMembership | app.py:301-304 | `low` holds exactly the input rows with 0 < value <= $1000. `high` holds exactly those above $1000. |
| Distribution.ExactlyOneBucket | app.py:301-304 | An input row lands in exactly one bucket when its value is positive, and in neither otherwise. |
| Distribution.BucketsPartition | app.py:301-304 | Counted with multiplicity, the two buckets together hold each positive row as often as the input does, and nothing else. |
| Distribution.BucketsKeepOrder | app.py:301-304 | Each bucket keeps the input order. |
| Seqs.SortBy | app.py:174 | `sort_values` returns a permutation of its input that is sorted by the rank. No tie order is promised. |
| Grouping.GroupSum | app.py:80 | `groupby().sum()` has distinct keys and the same key set as its input. Each key's amount and the grand total are unchanged. |
| Donations.GroupByMeaning | app.py:173 | Grouping rows on a key gives one entry per non-null key value, holding the value of the rows with that key. Rows with a null key drop out of the total. |

## Left out

- Loading the Excel export, renaming its columns, building the file path and `@st.cache_data` (app.py:11-25). These are file I/O and framework caching.
- `pd.to_datetime(errors="coerce")` and the derived `year`, `month` and `year_month` columns (app.py:31-34) are a library date parser. A row carries an optional `(year, month)` instead.
- The `astype(int)` at app.py:32 raises on a NaT year, so the script as written stops on an unparsable date. The model keeps such rows with no date: they match no year selection and fall out of the monthly totals.
- The sidebar option lists (app.py:39-50) are not modelled. The selections are inputs.
- All Streamlit widgets, text and tables, the Plotly and matplotlib charts, and the histogram bins (app.py:308-326) are rendering.
- The month-by-year pivot for the line chart (app.py:102-118) and the donut-chart totals (app.py:222-226, 271-275) are chart reshaping. The donut totals are the same group sum as `Donations.GroupBy`.
- Currency and percentage formatting (app.py:88-90, 215-218, 262-265) is float-to-string rendering.
- Outliers.FindOutliers: when no dated row survives the filters, `monthly_df` is empty and `monthly_df["std"].iloc[0]` at app.py:152 raises IndexError. The script then stops before lines 153-154 and before sections 3-5. The model requires at least one month here and does not model the stop. The models of sections 3-5 are total and do not depend on it.
- Outliers.OutliersMeaning, Outliers.FlatSeriesHasNoOutliers, Outliers.MonthlyOutliers: these require at least one month for the same reason.
- Outliers.FindOutliers: the standard deviation is an input. The model does not compute it, because that needs a floating-point square root. `IsSampleStd` ties it to the series: it is None below two months, and otherwise non-negative with its square equal to the sample variance (`ddof=1`).
- Gifts.StatsOf: the StdDev of a group comes from a `sampleStd` parameter, applied to the group's gift values when it has at least two gifts. The lemmas assume only that it is never negative (`NonNegativeStd`). Of the result, only its NaN-ness and its sign are proved.
- Monthly.PctChangeAt: where the total 12 positions back is zero, pandas gives `inf` or NaN. The model gives None.
- The `designated_value` column is a float in the script; the model counts in whole cents. NaN values (which `sum` skips and `> 0` rejects) are not modelled.
- Grouping.GroupSum: pandas returns groups sorted by key. The model returns them in an order of its own. Every consumer re-sorts or treats the groups as a set, so no property depends on it.
- Seqs.SortBy is a stable insertion sort. pandas' default quicksort is not stable, so no contract says anything about the order of equal values.
- The fund rule groups on fund name only. `designation_id` is not used by the modelled sections.

Behaviour of the script kept as written:

- YoY is positional. Each month is compared with the entry 12 positions earlier, not necessarily the same calendar month. `YoYComparesSameMonthIff` proves the two agree exactly when no month is missing.
- The standard deviation is the sample one (`ddof=1`), not the population one.
- The Subtotal row of an empty table holds zeros, and its StdDev is the sum of the defined deviations, because `DataFrame.sum` skips NaN and sums an empty column to 0. It is not null.
