# Tag trends dashboard: the data endpoint, modelled in Dafny

The dashboard's backend (`app.py`) answers one request, `/data`. It loads the monthly parquet
extracts of tagged questions, each row a question id, a tag and a date. It keeps the rows from
October 2021 on and counts the rows per month and tag. From that month × tag matrix it derives
four per-tag views:

- count: the raw numbers;
- percentage: each tag's share of its month;
- volatility: the month-over-month absolute change;
- growth: the month-over-month percentage change.

It also derives a pie chart of the latest month's 15 largest tags and a ranking of the 10 tags
with the most rows on questions that also carry `python`. Rows are counted as they are: a tag
repeated within one question, or a row present in two files, counts twice. Any failure is
answered with an error object.

This project models that computation and proves what it promises. Each row of the data is a
`Records.Record`: question id, tag, and the "YYYY-MM" month key of its timestamp.

- `records.dfy`: loading (no frames is an error), concatenation, and the cutoff filter.
- `order.dfy`: Python's string order and the sorted, de-duplicated index pandas builds for a
  `groupby`.
- `month_label.dfy`: month keys, their "Mon-YYYY" labels, and the proof that string order on
  keys is calendar order.
- `aggregate.dfy`: the zero-filled month × tag matrix.
- `views.dfy`: the count, percentage, volatility, growth and pie views.
- `ranking.dfy`: Python's stable `sorted(..., reverse=True)` by count, and the `[:k]` slice.
- `cooccurrence.dfy`: `calculate_co_occurrence`. It is an imperative method: a dict (a `map`
  plus its key insertion order) is filled by nested loops. It is proved equal to a functional
  specification, and that specification's properties are proved as lemmas.
- `cooccurrence_example.dfy`: a worked five-record instance of the ranking.
- `dashboard.dfy`: `get_data` as a whole. `Respond` is the answer as a function. `GetData` is
  the method that runs the steps in the endpoint's order and uses the counting loop.

Percentages and growth rates are exact `real`s. The source's rounding to two decimals is not
modelled.

An empty filtered dataset does not give empty views. The pie section reads
`formatted_months[-1]`, which raises `IndexError` when there is no month, and the handler then
answers `{"error": ...}`. `Dashboard.NothingRetainedIsError` proves this.

## Model

| member | source | states |
|---|---|---|
| Records.Load | app.py:164-172 | No frames is an error with the loader's message; otherwise the result is the concatenation of all frames, in order |
| Records.Concat | app.py:172 | The rows of all frames, frame after frame; a row is present iff some frame holds it |
| Records.Filter | app.py:194-195 | A row is kept iff its month key is not below "2021-10" in string order; kept rows keep their multiplicity |
| Records.FilterAppend | app.py:195 | Filtering distributes over concatenation, so row order is preserved |
| Records.FilterSplitsAtCutoff | app.py:195 | A kept row's month equals the cutoff or comes after it; a dropped row's month comes before it |
| MonthLabel.CutoffIsOctober2021 | app.py:195 | For well-formed keys, the string comparison with "2021-10" is the calendar comparison with October 2021 |
| MonthLabel.KeyOrderIsChronological | app.py:197 | For well-formed keys, string order (the order of the sorted month index) is calendar order |
| MonthLabel.FormatMonth | app.py:198 | A key yields a label iff it is a well-formed "YYYY-MM" key with month 01-12 |
| MonthLabel.FormatExample | app.py:198 | "2021-10" is labelled "Oct-2021" |
| MonthLabel.FormatThenParse | app.py:198 | The label of a well-formed key reads back as that key, so labelling loses nothing |
| MonthLabel.ParseThenFormat | app.py:198 | Every text that reads back as a key is that key's label, so labels and keys correspond one to one |
| Dashboard.Labels | app.py:198 | One label per month key, in order, each that key's label; no labels at all if any key is malformed |
| Aggregate.Build | app.py:197 | Months and tags are each sorted and distinct; each is exactly the set seen in the rows; every cell counts the rows of its month and tag |
| Aggregate.ZeroFilled | app.py:197 | A cell is 0 exactly when no row has that month and tag |
| Aggregate.RowSumIsMonthCount | app.py:197 | A matrix row sums to the number of rows in that month |
| Aggregate.RowTotalPositive | app.py:211 | Every month total of a matrix built from rows is positive |
| Aggregate.NoMonthsIffNoRecords | app.py:197 | The matrix has no months iff no row was kept |
| Views.CountView | app.py:203-208 | One series per tag column, named by its tag, labelled with all months, whose values are exactly that tag's column of the matrix |
| Views.CountViewMonthTotal | app.py:203-208 | For one month, the count values over all tags add up to that month's rows |
| Views.PercentageView | app.py:211-220 | One series per tag column, labelled with all months; the value of a tag in a month is that tag's share of the month's total |
| Views.PercentageGuardAndBounds | app.py:216 | A share is 0 when the month total is 0, and always lies between 0 and 100 |
| Views.ShareBounds | app.py:216 | A value no larger than its total has a share between 0 and 100 |
| Views.PercentagesSumTo100 | app.py:211-220 | A month's shares over all tags sum to 100, or to 0 when the month is empty |
| Views.Changes | app.py:226 | One value per month; the first is 0; each later one is the size of the change from the month before |
| Views.VolatilityView | app.py:223-228 | One series per tag column, labelled with all months, whose values are the month-over-month changes of that tag's column |
| Views.VolatilityValues | app.py:226 | A volatility value is 0 in the first month and otherwise the absolute difference of the tag's counts in that month and the one before |
| Views.ChangesBoundNetChange | app.py:226 | The changes of a column add up to at least the net change from its first month to its last |
| Views.Share | app.py:216 | The share is 0 when the month total is 0; otherwise share × total = value × 100 |
| Views.Rate | app.py:235 | The rate is 0 when the previous count is 0; otherwise (rate + 100) × previous = current × 100 |
| Views.RateMeaning | app.py:235 | The rate is 0 when the previous count is 0; otherwise rate × previous = (current − previous) × 100; positive iff the count grew, 0 iff unchanged, never below −100 |
| Views.Rates | app.py:234-237 | One value per pair of consecutive months, each that pair's rate |
| Views.GrowthView | app.py:231-239 | One series per tag column, labelled with all months but the first, whose values are the rates between consecutive counts of that tag's column |
| Views.GrowthShape | app.py:231-239 | A growth series has one value fewer than there are months, aligned with the months after the first, and is 0 wherever the previous count is 0 |
| Views.Latest | app.py:243 | One (tag, count) pair per column, with that tag's count in the last month |
| Views.PieView | app.py:242-248 | Labels and values have equal length, exactly 15 or the number of tags when there are fewer, with values non-increasing |
| Views.PieEntriesFromLatest | app.py:243-247 | Every pie entry is a (tag, last-month count) pair of the matrix |
| Views.PieValueIsLatestCount | app.py:243-247 | The pie value of a tag is its count in the latest month |
| Views.PieHoldsTheLargest | app.py:244 | A tag left out of the pie has a latest count no larger than any shown value |
| Views.PieTiesAtTheCut | app.py:244 | A tag left out of the pie while tying with a shown value comes after that value's tag in column order, so ties at the cut keep the alphabetically first tags |
| Views.PieTiesInTagOrder | app.py:244 | Pie entries with equal values appear in column order, which is alphabetical tag order |
| Ranking.SortDesc | app.py:183 | A permutation with counts non-increasing, in which the entries of each count keep their input order |
| Ranking.SortDescIsStable | app.py:183 | Of two sorted entries with equal counts, the earlier one was earlier in the input |
| Ranking.Take | app.py:183 | The slice `[:k]`: the prefix of length exactly k, or the whole list when it is no longer than k |
| Ranking.TopKeepsFirstTied | app.py:183 | Of the entries tied with one the slice cuts off, the slice keeps those earlier in the input |
| Ranking.TopKeepsLargest | app.py:183 | An entry that the slice cuts off counts no more than any entry it keeps |
| CoOccurrence.GroupIds | app.py:176 | Every question id once, ascending, exactly the ids present in the rows |
| CoOccurrence.WithAnchor | app.py:177 | Keeps exactly the question tag lists that contain "python", each as often as it occurs, in order |
| CoOccurrence.WithAnchorAppend | app.py:177 | Selecting the python questions distributes over concatenation, so question order is preserved |
| CoOccurrence.FirstSeen | app.py:178-182 | The dict's keys: every visited tag except "python", each once |
| CoOccurrence.Tally | app.py:178-182 | The dict's items: each key with its number of occurrences in the visited tags |
| CoOccurrence.CountTag | app.py:181-182 | One visited tag updates the dict: it stays the tally of the tags walked so far, with keys in first-occurrence order |
| CoOccurrence.CountTags | app.py:180-182 | The inner loop over one question's tags leaves the dict as the tally of everything walked, that question included |
| CoOccurrence.CountGroups | app.py:179-182 | The outer loop over the python questions leaves the dict as the tally of all their tags, keys in first-occurrence order |
| CoOccurrence.CalculateCoOccurrence | app.py:175-183 | The counting loops return the dict's items ranked by count, the first 10 |
| CoOccurrence.CoOccurring | app.py:178-183 | The ranking has exactly 10 entries, or one per co-occurring tag when there are fewer, in non-increasing count order |
| CoOccurrence.CoOccurringShape | app.py:178-183 | Exactly 10 entries (or one per co-occurring tag when there are fewer) in non-increasing count order; none for "python"; each count is its tag's number of occurrences and is at least 1 |
| CoOccurrence.CoOccurrenceCountsRecords | app.py:176-182 | A tag's count is the number of its rows whose question also carries "python"; repeats within one question count separately |
| CoOccurrence.CoOccurringTies | app.py:178-183 | Of two entries with equal counts, the one whose tag was met first in the walk comes first |
| CoOccurrence.FirstSeenOrder | app.py:182 | Dict keys are ordered by their first occurrence in the walk |
| CoOccurrence.CoOccurringKeepsLargest | app.py:183 | A co-occurring tag missing from the top 10 counts no more than any tag in it |
| CoOccurrence.CoOccurringTiesAtTheCut | app.py:178-183 | A co-occurring tag left out of the top 10 while tying with a tag in it was met later in the walk than that tag |
| CoOccurrence.NoAnchorNoCoOccurrence | app.py:177-183 | Without any "python" question the ranking is empty |
| CoOccurrenceExample.SampleRanking | app.py:175-183 | On five sample rows, pandas and flask each share one question with python and tie; pandas, met first in the walk, ranks first although flask sorts first by name and its row comes first; java and python are absent |
| Dashboard.Respond | app.py:186-260 | No files gives the loader's error; a payload has one count, percentage, volatility and growth series per tag, at most 15 pie entries and at most 10 co-occurring tags |
| Dashboard.GetData | app.py:186-260 | The endpoint's steps, with co-occurrence done by the loop, give exactly the answer `Respond` defines |
| Dashboard.RespondOutcome | app.py:186-260 | Error iff there are no files, a kept row has a malformed month, or no row is kept (each with its message); otherwise the payload holds the five views of the kept rows' matrix and their co-occurrence ranking |
| Dashboard.NothingRetainedIsError | app.py:242 | Files whose rows all precede the cutoff give the "list index out of range" error, not empty views |
| Dashboard.ErrorCases | app.py:186-260 | With well-formed month keys the only errors are "no files" and "nothing kept" |
| Dashboard.PayloadMonths | app.py:195-208 | The count series carry the month labels; every month key, the last included, is well formed, not before the cutoff, and read back from its label; later keys are later calendar months |

## Left out

- Flask routing, static file serving, CORS, `jsonify` and the port setting are not modelled. They
  are I/O around the computation.
- Directory listing and parquet decoding are not modelled. A frame is a sequence of records, and
  only "no frames → error" is kept.
- Column-name stripping and timestamp parsing (`pd.to_datetime(..., errors='coerce')`, `dropna`,
  `to_period('M')`) are not modelled. Each record already carries its month key, so unparseable
  timestamps are assumed to have been dropped.
- Dashboard.Labels: a malformed month key fails with `BadMonthMessage`. That is a stand-in for
  pandas' own error text, which is not modelled. Keys made by `to_period('M')` are always well
  formed.
- Dashboard.NothingRetainedIsError: `NoMonthsMessage` assumes that an empty frame gets through
  `groupby(...).unstack` and fails first at `formatted_months[-1]`.
- Views.PercentageView: values are exact reals, without the rounding to 2 decimals.
- Views.Rates: values are exact reals, without the rounding to 2 decimals.
- Integer widths of pandas and numpy (int64 counts) are not modelled. Counts are unbounded naturals.
- The commented-out earlier versions of the script at the top of `app.py` are dead code and are
  not modelled.
