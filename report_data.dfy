/**
 * The numbers the report is built from: the data date, the totals over the
 * whole table and up to the reference date, and one window analysis for
 * each of 7, 30 and 90 days.
 */
module ReportData {
  import opened Wrappers
  import opened CaseData
  import opened Aggregation

  /** The report's inputs. `dataDate` is the date of the table's last row. */
  datatype ReportData = ReportData(
    dataDate: int,
    totalNewCases: int,
    totalCasesFirstToRef: int,
    results: map<int, WindowResult>)

  /** The date of the table's last row, which is the latest date when the
      table is in date order; none for an empty table. */
  function DataDate(df: seq<CaseRecord>): (d: Option<int>)
    ensures d.Some? <==> df != []
    ensures d.Some? ==> exists i :: 0 <= i < |df| && df[i].date == d.value
  {
    if df == [] then None else Some(df[|df| - 1].date)
  }

  /** The rows are in date order. */
  predicate DateOrdered(df: seq<CaseRecord>)
  {
    forall i, j :: 0 <= i < j < |df| ==> df[i].date <= df[j].date
  }

  /** In a table in date order, the data date is the latest date of any row. */
  lemma DataDateIsLatestWhenOrdered(df: seq<CaseRecord>)
    requires df != [] && DateOrdered(df)
    ensures forall i :: 0 <= i < |df| ==> df[i].date <= DataDate(df).value
  {
    forall i | 0 <= i < |df| ensures df[i].date <= DataDate(df).value {
      if i < |df| - 1 {
        assert df[i].date <= df[|df| - 1].date;
      }
    }
  }

  /** Out of date order, the data date need not be the latest date: it is
      whatever the last row says. */
  lemma DataDateIsLastRowNotLatest()
    ensures DataDate([CaseRecord(5, "Johor", 1), CaseRecord(3, "Johor", 2)]) == Some(3)
  {
  }

  /** Cases from the table's first day up to the reference date, inclusive.
      With the cases dated after the reference date it makes up the whole
      table's total; with non-negative counts it lies between 0 and that
      total; and it is the whole total when no row is dated after `ref`. */
  function TotalCasesFirstToRef(df: seq<CaseRecord>, ref: int): (t: int)
    ensures t + SumCases(AfterRef(df, ref)) == SumCases(df)
    ensures NonNegative(df) ==> 0 <= t <= SumCases(df)
    ensures (forall i :: 0 <= i < |df| ==> df[i].date <= ref) ==> t == SumCases(df)
  {
    SumSplit(df, (r: CaseRecord) => r.date <= ref, (r: CaseRecord) => r.date > ref);
    var after := AfterRef(df, ref);
    assert NonNegative(df) ==> SumCases(after) >= 0 by {
      if NonNegative(df) {
        FilterNonNegative(df, (r: CaseRecord) => r.date > ref);
      }
    }
    assert NonNegative(df) ==> SumCases(UpToRef(df, ref)) >= 0 by {
      if NonNegative(df) {
        FilterNonNegative(df, (r: CaseRecord) => r.date <= ref);
      }
    }
    assert (forall i :: 0 <= i < |df| ==> df[i].date <= ref) ==> after == [] by {
      if forall i :: 0 <= i < |df| ==> df[i].date <= ref {
        FilterNone(df, (r: CaseRecord) => r.date > ref);
      }
    }
    SumCases(UpToRef(df, ref))
  }

  /** With non-negative counts, any window ending on the reference date holds
      no more cases than the total up to that date, which holds no more than
      the whole table. */
  lemma WindowWithinTotals(df: seq<CaseRecord>, ref: int, n: int)
    requires NonNegative(df)
    ensures SumCases(Window(df, ref, n)) <= TotalCasesFirstToRef(df, ref) <= SumCases(df)
  {
    SumFilterMonotone(df, (r: CaseRecord) => InWindow(r.date, ref, n), (r: CaseRecord) => r.date <= ref);
  }

  /** The window lengths of the report. */
  const Days: seq<int> := [7, 30, 90]

  /** A set holding exactly the window lengths is {7, 30, 90}. */
  lemma DaysAsSet(keys: set<int>)
    requires forall n :: n in keys <==> n in Days
    ensures keys == {7, 30, 90}
  {
    forall n ensures n in keys <==> n in {7, 30, 90} {
      assert n in Days <==> n == 7 || n == 30 || n == 90;
    }
  }

  /** Runs the window analysis once per report window, filling a table
      keyed by window length. */
  method AnalyseWindows(df: seq<CaseRecord>, ref: int, numStates: int) returns (results: map<int, WindowResult>)
    ensures results.Keys == {7, 30, 90}
    ensures forall n :: n in results ==> n >= 1 && results[n] == PastNDaysProcess(df, ref, n, numStates)
  {
    var days := Days;
    results := map[];
    for i := 0 to |days|
      invariant forall n :: n in results <==> n in days[..i]
      invariant forall n :: n in results ==> n >= 1 && results[n] == PastNDaysProcess(df, ref, n, numStates)
    {
      assert days[..i + 1] == days[..i] + [days[i]];
      var n := days[i];
      results := results[n := PastNDaysProcess(df, ref, n, numStates)];
    }
    assert days[..|days|] == days;
    DaysAsSet(results.Keys);
  }

  /** Gathers the report's numbers for reference date `ref`, listing
      `numStates` states per window. An empty table has no last row to date
      the data by, and gives none. */
  method ProcessData(df: seq<CaseRecord>, ref: int, numStates: int) returns (data: Option<ReportData>)
    ensures data.None? <==> df == []
    ensures data.Some? ==> data.value.dataDate == df[|df| - 1].date
    ensures data.Some? ==> data.value.totalNewCases == SumCases(df)
    ensures data.Some? ==> data.value.totalCasesFirstToRef == SumCases(UpToRef(df, ref))
    ensures data.Some? ==> data.value.results.Keys == {7, 30, 90}
    ensures data.Some? ==> forall n :: n in data.value.results ==>
              n >= 1 && data.value.results[n] == PastNDaysProcess(df, ref, n, numStates)
  {
    var dataDate := DataDate(df);
    var totalNewCases := SumCases(df);
    var totalCasesFirstToRef := TotalCasesFirstToRef(df, ref);
    var results := AnalyseWindows(df, ref, numStates);
    if dataDate.None? {
      return None;
    }
    data := Some(ReportData(dataDate.value, totalNewCases, totalCasesFirstToRef, results));
  }
}
