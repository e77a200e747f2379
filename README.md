# COVID-19 dashboard: daily report preparation

A Dafny model of the data preparation behind the DV-Lab-9 COVID-19 dashboard
(`app.py`). Both charts start from a date picked as `YYYY-MM-DD`. The date
names a daily snapshot file, `MM-DD-YYYY.csv`, that holds one row per region.

- The map (`prepare_daily_report`) sums the snapshot per `Country_Region` and
  renames `US` to `United States`. It turns every zero toll into one, so that
  the logarithm used for the colour scale is defined. It then left-joins ISO
  codes from a `COUNTRY`/`CODE` reference table and forces the codes of the two
  Congo names to `COD` and `COG`.
- The pie chart (`update_pie_chart`) renames `US` on the raw rows and keeps one
  country. It sums per `Last_Update` stamp and melts the four toll columns
  (Confirmed, Deaths, Recovered, Active) into `(Toll-type, Count)` rows.

Modules, one file each:

- `Wrappers`: Option and Result.
- `Records`: snapshot rows, toll columns, the `US` rename of a name.
- `DatePath`: `strptime('%Y-%m-%d')`, `strftime('%m-%d-%Y')` and the reverse
  reading `strptime('%m-%d-%Y')`.
- `Grouping`: `groupby([key]).sum()` with pandas' default sorted keys, over
  Python's code-point order of strings.
- `DailyReport`: the map pipeline.
- `PieChart`: the pie pipeline.

The two CSV reads are parameters. The snapshot read is a function from URL to
rows, or None when the read fails. The code table is a value, or None.

Behaviour of the code that one might not expect, which the model follows:

- `prepare_daily_report` renames `US` after grouping. A renamed row keeps the
  sorted position of `US`.
- For a country without rows, `update_pie_chart` produces an empty frame, not
  an error.
- Grouping by `Last_Update` drops rows whose stamp is missing, so the pie total
  covers only the selected rows that carry a stamp.
- An empty toll cell (NaN) adds nothing to a sum.

## Model

| member | source | states |
|---|---|---|
| `DatePath.MakeDate` | app.py:87-88 | the fields are accepted exactly when they form a valid Gregorian date of years 1 to 9999; otherwise the error is out-of-range |
| `DatePath.ParseIsoDate` | app.py:87-88 | whatever strptime('%Y-%m-%d') accepts is a valid calendar date |
| `DatePath.FormatPathSegment` | app.py:87-88 | the segment is 10 characters `MM-DD-YYYY` whose digit fields are the date's month, day and year |
| `DatePath.PathSegmentRoundTrip` | app.py:87-88 | reading the segment back with strptime('%m-%d-%Y') gives the original date |
| `DatePath.IsoRoundTrip` | app.py:160-161 | the `YYYY-MM-DD` form of every valid date is accepted and parses to that date |
| `DatePath.ToPathSegment` | app.py:87-88 | `strptime` then `strftime`: a segment exists exactly when the date parses, and then it is `FormatPathSegment` of the parsed date, i.e. zero-padded two-digit month, two-digit day and four-digit year fields holding that date's values; otherwise the parser's error is returned |
| `DatePath.ToPathSegmentReadsBack` | app.py:87-88 | a segment exists exactly when the date parses; it is 10 characters and reads back to the same date; otherwise the parser's error is returned |
| `DatePath.ToPathSegmentOfIsoShape` | app.py:160-161 | for `dddd-dd-dd` text: a segment exists iff year, month, day form a valid date (month 00/13, 30 Feb, 29 Feb of a common year rejected), and it is the same fields as `MM-DD-YYYY` |
| `DatePath.LeapDayExample` | app.py:87-88 | `2020-02-29` gives `02-29-2020` |
| `DatePath.CommonYearExample` | app.py:87-88 | `2021-02-29` is rejected as out of range |
| `DatePath.MonthThirteenExample` | app.py:87-88 | `2020-13-01` does not match the format |
| `DatePath.OneDigitExample` | app.py:87-88 | `2023-3-9` is accepted and gives `03-09-2023` |
| `Grouping.GroupSum` | app.py:93 | the result has keys strictly ascending, the same key set as the input, one row per distinct key |
| `Grouping.GroupSumRows` | app.py:93 | each output row holds, per toll column, the sum over exactly the input rows with its key |
| `Grouping.GroupSumConserves` | app.py:93 | the total of every toll column is the same before and after grouping |
| `Grouping.GroupSumOfSorted` | app.py:93 | a table already holding one row per key in key order is returned unchanged |
| `Grouping.GroupSumIdempotent` | app.py:93 | grouping twice equals grouping once |
| `DailyReport.AggregateByCountry` | app.py:93 | one row per distinct `Country_Region` of the snapshot, names ascending |
| `DailyReport.AggregateRows` | app.py:93 | each country row's toll equals that column's sum over the country's snapshot rows |
| `DailyReport.AggregateConserves` | app.py:93 | each toll column's total over country rows equals its total over the snapshot |
| `DailyReport.RenameCountries` | app.py:94 | no name is `US` afterwards; former `US` rows are `United States`, all other names and every toll unchanged |
| `DailyReport.RenameCountriesIdempotent` | app.py:94 | renaming twice equals renaming once |
| `DailyReport.ReplaceZeros` | app.py:95 | zero tolls become 1, non-zero tolls and names are unchanged, every toll is at least 1 |
| `DailyReport.ReplaceZerosIdempotent` | app.py:95 | substituting twice equals substituting once |
| `DailyReport.SnapshotUrl` | app.py:91-92 | the snapshot address is the fixed base, the segment, then `.csv`, and the segment can be read back from it |
| `DailyReport.CodesFor` | app.py:98 | the codes matched to a name are exactly those of reference rows with that exact name; none iff the name is not listed |
| `DailyReport.CodesForCount` | app.py:98 | each code is matched as many times as the table lists it for the name |
| `DailyReport.CodesForAppend` | app.py:98 | codes are matched in table order: the codes from two parts of the table are those of the first part, then the second |
| `DailyReport.JoinRow` | app.py:98 | an unlisted name gives exactly one row with its name, its tolls and no code; a listed name gives one row per matching reference row, in table order, with that row's code |
| `DailyReport.LeftJoin` | app.py:98 | at least as many rows as the input; every joined row is an input row plus a code from a reference row of its exact name, absent iff none |
| `DailyReport.LeftJoinComplete` | app.py:98 | no aggregated row is lost: each has a joined row with its name and tolls |
| `DailyReport.LeftJoinAppend` | app.py:98 | the join is row by row and in order: joining two parts of the aggregated frame is joining the first, then the second |
| `DailyReport.LeftJoinSingle` | app.py:98 | one aggregated row is joined as `JoinRow` gives it, so with `LeftJoinAppend` each row becomes its block of matches in turn |
| `DailyReport.LeftJoinUnique` | app.py:98 | with unique `COUNTRY` keys: same length, row i keeps name and tolls of input row i, code present iff listed and then the listed one |
| `DailyReport.SetCode` | app.py:100 | rows with the given name get the given code; all other codes, all names and tolls unchanged |
| `DailyReport.FixCongoCodes` | app.py:100-101 | `Congo (Kinshasa)` rows get `COD` and `Congo (Brazzaville)` rows `COG`, whatever the join gave; every other row unchanged |
| `DailyReport.BuildReport` | app.py:93-101 | no row named `US`, every toll at least 1, the Congo codes fixed, at least as many rows as distinct countries |
| `DailyReport.BuildReportCovers` | app.py:93-101 | whatever the reference table, every snapshot country has a report row under its renamed name |
| `DailyReport.BuildReportFromSnapshot` | app.py:93-101 | every report row is a snapshot country under its renamed name |
| `DailyReport.BuildReportRows` | app.py:93-101 | with unique reference keys: one row per distinct country, renamed, tolls are the country sums with 0 read as 1, codes fixed for Congo and otherwise from the table when listed |
| `DailyReport.UnitedStatesExample` | app.py:93-101 | two `US` rows with 10 and 5 confirmed give one `United States` row with 15 confirmed and the table's code |
| `DailyReport.PrepareDailyReport` | app.py:86-103 | a bad date gives that date error; success exactly when the date parses and both reads succeed; the result is then the report built from the snapshot read at the date's address and the code table |
| `PieChart.RenameRows` | app.py:165 | no country or `Last_Update` cell is `US` afterwards; such a cell becomes `United States`; toll cells and rows without a `US` cell are unchanged |
| `PieChart.RenameRowsIdempotent` | app.py:165 | renaming twice equals renaming once |
| `PieChart.SelectCountry` | app.py:166 | keeps exactly the rows whose country equals the selected one, each as many times as in the snapshot |
| `PieChart.SelectCountryAppend` | app.py:166 | the filter keeps snapshot order: selecting from two parts is selecting from each, one after the other |
| `PieChart.ByLastUpdate` | app.py:167 | the grouping keys are exactly the `Last_Update` stamps present; rows without a stamp take no part |
| `PieChart.ByLastUpdateTotal` | app.py:167 | the column sums entering the grouping are those over rows that carry a stamp |
| `PieChart.AggregateByLastUpdate` | app.py:167 | one row per distinct stamp of the rows, stamps ascending |
| `PieChart.AggregateByLastUpdateRows` | app.py:167 | each stamp's row holds, per toll column, the sum over the rows carrying that stamp |
| `PieChart.Melt` | app.py:169 | four rows per group; the row of toll t for group j sits at position j of block t (Confirmed, Deaths, Recovered, Active) and carries j's stamp, t and j's value of t |
| `PieChart.MeltRoundTrip` | app.py:169 | the melted rows are labelled as a melt (type and stamp at each position), and pivoting them back gives the grouped frame |
| `PieChart.UnmeltRoundTrip` | app.py:169 | a frame labelled as a melt is the melt of its pivot, so the melt is the only such layout of the counts |
| `PieChart.MeltTotal` | app.py:169 | the counts add up to the four tolls summed over all groups |
| `PieChart.PieData` | app.py:165-169 | 4 × (number of distinct stamps of the selected country's rows after the rename) pairs, only their stamps, types in melt order; `PieDataRows` gives each pair |
| `PieChart.PieDataRows` | app.py:165-169 | the pair of toll t for the j-th stamp (stamps ascending) is that stamp, t and the sum of column t over the selected rows carrying that stamp |
| `PieChart.PieDataTotal` | app.py:165-169 | the total count is the sum of the four tolls over the selected country's rows that carry a stamp |
| `PieChart.PieDataAbsent` | app.py:165-169 | a country with no rows after the rename gives an empty result |
| `PieChart.SingleRowExample` | app.py:165-169 | a single row 100/2/90/8 gives exactly those four pairs in order, adding up to 200 |
| `PieChart.UpdatePieChart` | app.py:159-169 | a bad date gives that date error; success exactly when the date parses and the snapshot read succeeds; the result is then the pie data of the rows read at the date's address |

## Left out

- Network reads of the snapshot and the code table (app.py:91-92, 97, 163-164). They are parameters of `PrepareDailyReport` and `UpdatePieChart`. CSV parsing and pandas' column type inference are not modelled.
- The module-level read and aggregation at app.py:10-14, which fills the country dropdown, is not modelled. It is the same grouping and rename as app.py:93-94.
- The Dash layout, the widgets, the callback wiring and `app.run_server` are not modelled. The model does not enforce the date picker's bounds (2020-02-01 to 2023-03-09), and neither does `prepare_daily_report`.
- `np.log`, the choropleth settings, the hover text, the pie figure and the `print` calls are presentation and floating point. Only the "every toll at least 1 before the logarithm" fact is stated.
- Columns other than the country, `Last_Update` and the four tolls are not modelled. pandas also sums, replaces or drops those columns (Lat/Long, Province_State and others).
- Tolls are unbounded naturals. The int64/float64 storage of pandas is not modelled.
- A row without `Country_Region` is not modelled: a country is always a string. pandas would drop such a row from the grouping.
- DatePath.ParseIsoDate: accepts only ASCII digits. Python's `\d` also matches other Unicode decimal digits.
- DatePath.FormatPathSegment: always writes the year as four digits. glibc's `%Y` leaves years below 1000 unpadded, but such years are outside the date picker's range.
- The default argument `date_value="2023-03-09"` of `prepare_daily_report` (app.py:86) is not modelled: the date is always a parameter, and the callback always passes the picker's value.
