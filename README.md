# Malaysia COVID-19 new-case analysis, modelled in Dafny

This project models the computation behind the COVID-19 new-case report for
Malaysia. The input is a table of daily new cases per state and a reference
date. For each trailing window of 7, 30 and 90 days that ends on the reference
date, the report gives three things:

- the country-wide daily average: the window's total divided by the window
  length, rounded up;
- the states with the highest per-state daily averages;
- the states with the lowest per-state daily averages.

Each state's average is its mean over its own rows in the window, rounded up.
The report also gives the data date (the date of the table's last row), the
total of all new cases, and the total up to the reference date. The requested
number of states is checked first: a count from 1 to 16 is kept, and a count
outside that range or text that does not read as a number becomes 3. An
argument of the wrong kind (no value at all, say) is not caught and stops the
program.

Modules, one per component:

- `CaseData` (`case_data.dfy`): a table row (`CaseRecord`: date, state,
  `cases_new`). The row selections: a generic `Filter` that keeps each accepted row with its multiplicity, the
  inclusive `Window`, and `UpToRef`/`AfterRef`. Sums of `cases_new`.
- `Ceiling` (`ceiling.dfy`): the exact integer ceiling `CeilDiv` of a quotient.
  `IsCeiling` is its independent characterisation.
- `StateGroups` (`state_groups.dfy`): grouping a window by state. This gives
  the per-state table `StateAverages`, one entry per state present, each
  carrying the ceiling of that state's mean.
- `Ranking` (`ranking.dfy`): ranking the per-state table highest first or
  lowest first (an insertion sort, specified by `Ranked` and a multiset
  equality). Also `head(k)` on the ranked list.
- `Aggregation` (`aggregation.dfy`): the analysis of one window
  (`PastNDaysProcess`) and its properties.
- `ReportData` (`report_data.dfy`): the data date, the totals, and the loop
  that runs the analysis for 7, 30 and 90 days into a table keyed by window
  length.
- `Validation` (`validation.dfy`): the state-count check.
- `Wrappers` (`wrappers.dfy`): `Option`.

Modelling decisions:

- Dates are integer day numbers. The window for length `n` and reference
  date `ref` is therefore `[ref - (n - 1), ref]`.
- Case counts are unbounded integers. Averages are exact rational ceilings,
  computed as `-((-a) / b)` with Dafny's floor division for `b > 0`.
- The divisor of the country-wide average is the nominal window length, not
  the number of days that have rows. `NominalDivisorExample` shows the
  difference: one row of 10 cases in a 7-day window gives a country-wide
  average of 2, while the state's own average is 10.
- Equal averages may come out in any order. The code ranks with pandas
  `sort_values`, whose default quicksort is not stable. Tie order is therefore
  not fixed, and every contract speaks of order by average only. For the same
  reason, the per-state table lists states in order of appearance, not in the
  name order pandas' `groupby` yields: only tie order could observe the
  difference.
- `head(k)` follows pandas for every integer `k`: a negative `k` keeps all but
  the last `-k` rows. With a count from the validator (1 to 16), the top and
  bottom lists have `min(k, number of states in the window)` entries.
- With an empty table, the program fails when it formats the data date, because
  there is no last row. `ProcessData` returns `None` exactly for an empty table.
- The program never checks that case counts are non-negative. Lemmas that need
  non-negative counts say so with `NonNegative`.
- The `for n in days` loop of `process_data` sits in its own method,
  `AnalyseWindows`, which `ProcessData` calls after computing the totals, as the
  program does.
- All functions are deterministic. Re-running the analysis on the same inputs
  gives the same result by construction.

## Model

| member | source | states |
|---|---|---|
| CaseData.Filter | covidAnalysis.py:12 | each row is kept exactly as many times as it occurs in the input when it passes the test, and not at all otherwise; never longer than the input |
| CaseData.Window | covidAnalysis.py:11-12 | the window holds each row dated from `ref - (n - 1)` to `ref` inclusive, as often as in the table, and no other row |
| CaseData.WindowOfTableInRange | covidAnalysis.py:11-12 | a table whose rows are all dated inside the window is its own window, rows and order unchanged |
| CaseData.WindowBounds | covidAnalysis.py:11-12 | rows on the first day and on the reference date are in the window; rows one day before the first day or one day after the reference date are not |
| CaseData.SumCases | covidAnalysis.py:45-51 | the sum of `cases_new` over the given rows, 0 for none; at least 0 when no count is negative |
| CaseData.UpToRef | covidAnalysis.py:49 | exactly the rows dated on or before the reference date, with their multiplicities |
| CaseData.SumSplit | covidAnalysis.py:45-51 | for any test, the total equals the sum of the rows it keeps plus the sum of the rows it drops |
| CaseData.SumFilterMonotone | covidAnalysis.py:45-51 | with non-negative counts, a test that keeps fewer rows gives a smaller or equal sum |
| CaseData.FilterNonNegative | covidAnalysis.py:12 | a selection of non-negative rows is non-negative and has a non-negative sum |
| Ceiling.CeilDiv | covidAnalysis.py:15 | the result `r` is the ceiling of `a / b`: `(r - 1) * b < a <= r * b`; non-negative for a non-negative dividend |
| Ceiling.CeilingUnique | covidAnalysis.py:15 | the ceiling characterisation fixes the result uniquely |
| Ceiling.CeilingOfZero | covidAnalysis.py:15 | zero cases over any positive number of days average to 0 |
| Ceiling.TenOverThree | covidAnalysis.py:15 | 10 cases over 3 days average to 4 (rounded up, not to the nearest) |
| StateGroups.StateRecords | covidAnalysis.py:18 | exactly the window's rows for the given state |
| StateGroups.StateCount | covidAnalysis.py:18 | the number of the state's rows in the window, the divisor of its mean: positive exactly for the states present in the window, and at most the window's size |
| StateGroups.StateSum | covidAnalysis.py:18 | the state's cases summed over its rows in the window: 0 for a state with no rows, at least 0 with non-negative counts |
| StateGroups.StateMean | covidAnalysis.py:18-20 | a state's average is the ceiling of its window sum divided by its row count in the window |
| StateGroups.DistinctStates | covidAnalysis.py:18 | each state of the window is listed exactly once, and nothing else is listed |
| StateGroups.MeansOf | covidAnalysis.py:18-20 | one entry per listed state, in the same order, carrying the ceiling of that state's mean |
| StateGroups.StateAverages | covidAnalysis.py:18-20 | one entry per state present in the window, no state twice, none absent from the window, each with the ceiling of its mean |
| StateGroups.NoRowsNoGroups | covidAnalysis.py:18 | a window with no rows gives no per-state entries |
| Ranking.Insert | covidAnalysis.py:22 | inserting into a ranked list keeps it ranked and adds exactly that entry |
| Ranking.Sort | covidAnalysis.py:22-25 | the result is ranked in the requested direction and is a permutation of the input |
| Ranking.HeadLength | covidAnalysis.py:22-25 | how many rows pandas' `head(k)` keeps of `len`: `k` when `0 <= k <= len`, all when `k > len`, all but the last `-k` (none if `-k >= len`) when `k < 0`; never more than `len` |
| Ranking.Rank | covidAnalysis.py:22-25 | `head(k)` of the ranked table: it has pandas' head length, is ranked, is drawn from the table, and no entry it leaves out may stand before one it keeps |
| Ranking.PrefixOutranksRest | covidAnalysis.py:22-25 | in a ranked arrangement, no entry after the first `m` may stand before an entry among them |
| Aggregation.PastNDaysProcess | covidAnalysis.py:7-27 | the country-wide average is the ceiling of the window sum divided by the nominal `n`; non-negative for non-negative counts |
| Aggregation.TopStates | covidAnalysis.py:22 | top list: `min(numStates, states in window)` entries, highest first, each a window state with its mean, no state twice, and every unlisted state's average at most every listed one's |
| Aggregation.BottomStates | covidAnalysis.py:25 | bottom list: same length, lowest first, each a window state with its mean, no state twice, and every unlisted state's average at least every listed one's |
| Aggregation.RankOfStateAverages | covidAnalysis.py:18-25 | the properties of both lists, for either direction, in terms of the window's states and their means |
| Aggregation.EmptyWindow | covidAnalysis.py:11-25 | when no row falls in the window, the average is 0 and both lists are empty, with no error |
| Aggregation.NominalDivisorExample | covidAnalysis.py:15-20 | one 10-case row in a 7-day window: country-wide average 2 (divided by 7), the state's own average 10 (divided by its one row) |
| ReportData.DataDate | covidAnalysis.py:42 | present exactly for a non-empty table, and then the date of one of its rows |
| ReportData.DataDateIsLatestWhenOrdered | covidAnalysis.py:42 | for a table in date order, the data date is the latest date |
| ReportData.DataDateIsLastRowNotLatest | covidAnalysis.py:42 | out of date order, the data date is the last row's date, not the latest |
| ReportData.TotalCasesFirstToRef | covidAnalysis.py:49-51 | the total up to the reference date plus the cases dated after it is the whole-table total; with non-negative counts it lies between 0 and that total; it is the whole total when no row is dated after the reference date |
| ReportData.WindowWithinTotals | covidAnalysis.py:45-58 | with non-negative counts: window sum <= total up to the reference date <= whole-table total |
| ReportData.AnalyseWindows | covidAnalysis.py:53-58 | the loop fills a table with exactly the keys 7, 30 and 90, each holding the window analysis for that length |
| ReportData.ProcessData | covidAnalysis.py:30-70 | none exactly for an empty table; otherwise data date = last row's date, total = sum of all rows, total to the reference date = sum of rows dated on or before it, results keyed exactly 7/30/90 with the analysis for each |
| Validation.NumStatesValidation | covidAnalysis.py:84-95 | a count in [1, 16] is returned unchanged; one outside that range, or an argument `int()` rejects with `ValueError`, gives 3; the result is then always in [1, 16]; an argument `int()` rejects with `TypeError` gives none, for the exception that escapes the validator |
| Validation.ValidationIdempotent | covidAnalysis.py:84-95 | validating a count the validator returned gives that count back |

## Left out

- Loading the table: the network fetch, `pd.read_csv`, date parsing, and the `FileNotFoundError` branch (covidAnalysis.py:32-39, 71-73). The model starts from an in-memory table of rows.
- Missing or non-numeric `cases_new` values. pandas would skip NaN in sums and means; the model has integer counts only.
- Floating point. pandas computes the means and `sum / n` in floating point before rounding up. The model uses exact rational ceilings, which can differ from the float result only for very large counts.
- The reference date as a `DD-MM-YY` string, its re-parsing in `process_data` (covidAnalysis.py:48), and its echo into the report. The model takes the parsed date as a day number.
- `ref_date_validation` (covidAnalysis.py:75-82). It is a wrapper over the calendar parser: two-digit years, one-digit days, calendar checks. Its fallback reads the clock.
- The report timestamp from the clock (covidAnalysis.py:60), and the `DD-MM-YY` and thousands-separator formatting of the dates and totals (covidAnalysis.py:61, 67-68).
- `generate_report` and `save_report` (covidAnalysis.py:98-141): fixed-width text layout and file output.
- Command-line parsing and the top-level flow (covidAnalysis.py:143-158). `Validation.IntConversion` stands for the outcome of Python's `int()` on the argument: a value, a `ValueError` or a `TypeError`. The command line declares the argument as an integer with default 3, so from there only the first outcome occurs.
- Warning and diagnostic messages (covidAnalysis.py:72, 81, 91, 94, 141, 156).
- The order of tied averages, and the state-name order of pandas' group rows. See the modelling decisions above.
